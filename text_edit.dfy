/**
 * Applying a list of text changes to a QTextDocument, as both document
 * wrappers do: the changes are sorted and do not overlap, each names a range
 * of the original text and its replacement, and they are applied from the
 * last to the first so that the earlier ranges keep their offsets.
 */
module TextEdit {
  import opened Wrappers
  import opened QtText

  /** One change: the text in [start, end) is replaced by text. */
  datatype Change = Change(start: nat, end: nat, text: string)

  /** Each change lies inside a text of length len, and every change ends before the next one starts. */
  predicate ChangesOk(cs: seq<Change>, len: nat)
  {
    && (forall i :: 0 <= i < |cs| ==> cs[i].start <= cs[i].end <= len)
    && (forall i, j :: 0 <= i < j < |cs| ==> cs[i].end <= cs[j].start)
  }

  /** Where the first change starts, the end of the text when there is none. */
  function FirstStart(cs: seq<Change>, len: nat): nat
  {
    if cs == [] then len else cs[0].start
  }

  lemma ChangesOkTail(cs: seq<Change>, len: nat, i: nat)
    requires ChangesOk(cs, len) && i <= |cs|
    ensures ChangesOk(cs[i..], len)
    ensures i < |cs| ==> FirstStart(cs[i..], len) == cs[i].start
    ensures i > 0 ==> cs[i - 1].end <= FirstStart(cs[i..], len)
  {
  }

  /**
   * The text from offset from on with the changes made: the original text
   * up to each change, the change's text instead of its range, and the rest.
   */
  function Rebuild(text: string, cs: seq<Change>, from: nat): string
    requires ChangesOk(cs, |text|) && from <= FirstStart(cs, |text|)
    decreases |cs|
  {
    if cs == [] then text[from..]
    else
      ChangesOkTail(cs, |text|, 1);
      text[from..cs[0].start] + cs[0].text + Rebuild(text, cs[1..], cs[0].end)
  }

  /** The text between two offsets before the first change is kept as it was. */
  lemma RebuildFrom(text: string, cs: seq<Change>, a: nat, b: nat)
    requires ChangesOk(cs, |text|) && a <= b <= FirstStart(cs, |text|)
    ensures Rebuild(text, cs, a) == text[a..b] + Rebuild(text, cs, b)
  {
    if cs != [] {
      assert text[a..cs[0].start] == text[a..b] + text[b..cs[0].start];
    }
  }

  /** The characters the changes remove and add. */
  function Removed(cs: seq<Change>): int
  {
    if cs == [] then 0 else cs[0].end - cs[0].start + Removed(cs[1..])
  }

  function Added(cs: seq<Change>): nat
  {
    if cs == [] then 0 else |cs[0].text| + Added(cs[1..])
  }

  /** The changed text is longer by what the changes add and shorter by what they remove. */
  lemma {:induction false} RebuildLength(text: string, cs: seq<Change>, from: nat)
    requires ChangesOk(cs, |text|) && from <= FirstStart(cs, |text|)
    ensures |Rebuild(text, cs, from)| == |text| - from - Removed(cs) + Added(cs)
    decreases |cs|
  {
    if cs != [] {
      ChangesOkTail(cs, |text|, 1);
      RebuildLength(text, cs[1..], cs[0].end);
    }
  }

  /** One change replaces its range; a change with start == end inserts and removes nothing. */
  lemma OneChange(text: string, c: Change)
    requires c.start <= c.end <= |text|
    ensures Rebuild(text, [c], 0) == text[..c.start] + c.text + text[c.end..]
    ensures c.start == c.end ==> |Rebuild(text, [c], 0)| == |text| + |c.text| && Rebuild(text, [c], 0)[..c.start] == text[..c.start]
  {
    assert [c][1..] == [];
  }

  /**
   * With the later changes made, replacing the range of the change before
   * them in the current text makes that one too: its offsets still hold.
   */
  lemma StepBack(orig: string, cs: seq<Change>, cur: string, c: TextCursor)
    requires ChangesOk(cs, |orig|) && cs != []
    requires cur == Rebuild(orig, cs[1..], 0)
    requires c == TextCursor(cs[0].end, cs[0].start) || (cs[0].start == cs[0].end && c == TextCursor(cs[0].end, cs[0].end))
    ensures c.anchor <= |cur| && c.position <= |cur|
    ensures InsertText(cur, c, cs[0].text) == Rebuild(orig, cs, 0)
  {
    ChangesOkTail(cs, |orig|, 1);
    var start, end := cs[0].start, cs[0].end;
    RebuildFrom(orig, cs[1..], 0, end);
    RebuildLength(orig, cs[1..], end);
    var rest := Rebuild(orig, cs[1..], end);
    assert cur == orig[..end] + rest;
    assert cur[..start] == orig[..start];
    assert cur[end..] == rest;
  }

  /**
   * The changes applied from the last to the first, each by setting a
   * cursor at its end, selecting back to its start when the range is not
   * empty, and inserting the text there. Qt's undo grouping is not modelled.
   */
  method ApplyChanges(doc: TextDocument, changes: seq<Change>)
    requires ChangesOk(changes, |doc.text|)
    modifies doc`text
    ensures doc.text == Rebuild(old(doc.text), changes, 0)
  {
    ghost var orig := doc.text;
    var i := |changes|;
    while i > 0
      invariant 0 <= i <= |changes|
      invariant doc.text == Rebuild(orig, changes[i..], 0)
    {
      i := i - 1;
      ChangesOkTail(changes, |orig|, i);
      var start, end, text := changes[i].start, changes[i].end, changes[i].text;
      var c := TextCursor(end, end);
      if start != end {
        c := c.(position := start);
      }
      assert changes[i..][1..] == changes[i + 1..];
      StepBack(orig, changes[i..], doc.text, c);
      doc.text := InsertText(doc.text, c, text);
    }
  }
}

/**
 * split_formats of the parceqt highlighter: the format ranges of one block's
 * layout, cut at a position inside the block into the ranges before it and
 * the ranges from it on, the latter shifted as if the block started there.
 */
module SplitFormats {
  import opened QtFormat
  import opened QtText

  /** A format range moved by d positions. */
  function Shift(r: FormatRange, d: int): FormatRange
  {
    FormatRange(r.start + d, r.length, r.format)
  }

  /** Every range of rs moved by d positions. */
  function ShiftAll(rs: seq<FormatRange>, d: int): (r: seq<FormatRange>)
    ensures |r| == |rs|
  {
    seq(|rs|, i requires 0 <= i < |rs| => Shift(rs[i], d))
  }

  /** Moving back by d undoes moving by d. */
  lemma ShiftBack(rs: seq<FormatRange>, d: int)
    ensures ShiftAll(ShiftAll(rs, d), -d) == rs
  {
    assert forall i :: 0 <= i < |rs| ==> ShiftAll(ShiftAll(rs, d), -d)[i] == rs[i];
  }

  /** A range that lies wholly before pos: it starts and ends before it. */
  predicate Before(r: FormatRange, pos: int)
  {
    r.start < pos && RangeEnd(r) <= pos
  }

  /**
   * Where the first loop of split_formats stops: the index of the first
   * range that does not lie wholly before pos, or the number of ranges.
   */
  function CutIndex(formats: seq<FormatRange>, pos: int): (k: nat)
    ensures k <= |formats|
    ensures forall i :: 0 <= i < k ==> Before(formats[i], pos)
    ensures k < |formats| ==> !Before(formats[k], pos)
  {
    if formats == [] || !Before(formats[0], pos) then 0
    else 1 + CutIndex(formats[1..], pos)
  }

  /** Whether the range where the first loop stops starts before pos and so straddles it. */
  predicate Straddles(formats: seq<FormatRange>, pos: int)
  {
    var k := CutIndex(formats, pos);
    k < |formats| && formats[k].start < pos
  }

  /** The first list split_formats returns: the ranges before pos, a straddling one cut at pos. */
  function SplitHead(formats: seq<FormatRange>, pos: int): (r: seq<FormatRange>)
    ensures |r| == CutIndex(formats, pos) + if Straddles(formats, pos) then 1 else 0
  {
    var k := CutIndex(formats, pos);
    formats[..k] +
      if Straddles(formats, pos) then [FormatRange(formats[k].start, pos - formats[k].start, formats[k].format)] else []
  }

  /**
   * The second list split_formats returns: the rest of a straddling range
   * from position 0, then every later range shifted back by pos.
   */
  function SplitTail(formats: seq<FormatRange>, pos: int): (r: seq<FormatRange>)
    ensures |r| == |formats| - CutIndex(formats, pos)
  {
    var k := CutIndex(formats, pos);
    if k == |formats| then []
    else if Straddles(formats, pos) then [FormatRange(0, RangeEnd(formats[k]) - pos, formats[k].format)] + ShiftAll(formats[k + 1..], -pos)
    else ShiftAll(formats[k..], -pos)
  }

  /** Where each range past the one the first loop stops at lands in the second list: shifted back by pos. */
  lemma TailAt(formats: seq<FormatRange>, pos: int, j: nat)
    requires CutIndex(formats, pos) < j < |formats|
    ensures SplitTail(formats, pos)[j - CutIndex(formats, pos)] == Shift(formats[j], -pos)
  {
    var k := CutIndex(formats, pos);
    if Straddles(formats, pos) {
      assert SplitTail(formats, pos)[j - k] == ShiftAll(formats[k + 1..], -pos)[j - k - 1];
    } else {
      assert SplitTail(formats, pos)[j - k] == ShiftAll(formats[k..], -pos)[j - k];
    }
  }

  /**
   * Splits the formats of a block's layout at pos (relative to the block):
   * the first loop copies ranges to the first list until one reaches pos,
   * the second shifts every remaining range into the second list.
   */
  method Split(formats: seq<FormatRange>, pos: int) returns (head: seq<FormatRange>, tail: seq<FormatRange>)
    ensures head == SplitHead(formats, pos) && tail == SplitTail(formats, pos)
  {
    ghost var k := CutIndex(formats, pos);
    ghost var T := SplitTail(formats, pos);
    head, tail := [], [];
    var i := 0;
    var done := false;
    while i < |formats| && !done
      invariant i <= |formats|
      invariant !done ==> i <= k && head == formats[..i] && tail == []
      invariant done ==> i == k + 1 && head == SplitHead(formats, pos) && tail == T[..1]
    {
      var r := formats[i];
      if r.start < pos {
        if RangeEnd(r) > pos {
          head := head + [FormatRange(r.start, pos - r.start, r.format)];
          tail := tail + [FormatRange(0, RangeEnd(r) - pos, r.format)];
          done := true;
        } else {
          head := head + [r];
        }
      } else {
        tail := tail + [Shift(r, -pos)];
        done := true;
      }
      i := i + 1;
    }
    if !done {
      assert i == k == |formats|;
    }
    while i < |formats|
      invariant i <= |formats|
      invariant i < |formats| ==> k < i
      invariant k < |formats| ==> k < i && tail == T[..i - k]
      invariant k == |formats| ==> tail == []
    {
      TailAt(formats, pos, i);
      assert T[..i + 1 - k] == T[..i - k] + [T[i - k]];
      tail := tail + [Shift(formats[i], -pos)];
      i := i + 1;
    }
    assert k < |formats| ==> T[..i - k] == T;
  }

  /** The ranges before pos come first in the first list, unchanged and in order. */
  lemma HeadKeepsBefore(formats: seq<FormatRange>, pos: int)
    ensures CutIndex(formats, pos) <= |SplitHead(formats, pos)|
    ensures SplitHead(formats, pos)[..CutIndex(formats, pos)] == formats[..CutIndex(formats, pos)]
    ensures forall r :: r in SplitHead(formats, pos) ==> r.start < pos && RangeEnd(r) <= pos
  {
  }

  /** A straddling range is cut in two at pos: the lengths of the two pieces add up to its length. */
  lemma StraddleCut(formats: seq<FormatRange>, pos: int)
    requires Straddles(formats, pos)
    ensures var k := CutIndex(formats, pos);
      && |SplitHead(formats, pos)| == k + 1 && |SplitTail(formats, pos)| >= 1
      && SplitHead(formats, pos)[k].start == formats[k].start
      && SplitTail(formats, pos)[0].start == 0
      && SplitHead(formats, pos)[k].length + SplitTail(formats, pos)[0].length == formats[k].length
      && SplitHead(formats, pos)[k].format == SplitTail(formats, pos)[0].format == formats[k].format
  {
  }

  /**
   * Without a straddling range the split loses nothing: the first list
   * followed by the second list moved back by pos is the block's formats.
   */
  lemma SplitRejoins(formats: seq<FormatRange>, pos: int)
    requires !Straddles(formats, pos)
    ensures SplitHead(formats, pos) + ShiftAll(SplitTail(formats, pos), pos) == formats
  {
    var k := CutIndex(formats, pos);
    assert SplitHead(formats, pos) == formats[..k];
    assert SplitTail(formats, pos) == ShiftAll(formats[k..], -pos);
    ShiftBack(formats[k..], -pos);
    assert formats[..k] + formats[k..] == formats;
  }

  /** With a straddling range, every range after it lands in the second list moved back by pos. */
  lemma TailAfterStraddle(formats: seq<FormatRange>, pos: int)
    requires Straddles(formats, pos)
    ensures var k := CutIndex(formats, pos);
      ShiftAll(SplitTail(formats, pos)[1..], pos) == formats[k + 1..]
  {
    var k := CutIndex(formats, pos);
    var rest := ShiftAll(formats[k + 1..], -pos);
    var t := [FormatRange(0, RangeEnd(formats[k]) - pos, formats[k].format)] + rest;
    assert SplitTail(formats, pos) == t;
    assert t[1..] == rest;
    ShiftBack(formats[k + 1..], -pos);
  }
}

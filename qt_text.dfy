/**
 * A QTextDocument: its plain text, split into blocks at each '\n', and the
 * per-block layout format ranges the highlighters write.
 *
 * A block's length counts its separator; the last block's separator is the
 * one Qt keeps after the text, so the lengths add up to characterCount().
 */
module QtText {
  import opened Wrappers
  import opened Strings
  import opened QtFormat

  /** QTextLayout.FormatRange: a format for [start, start + length) relative to the block. */
  datatype FormatRange = FormatRange(start: int, length: int, format: CharFormat)

  function RangeEnd(r: FormatRange): int { r.start + r.length }

  /** A document always has at least one block, and every block holds at least its separator. */
  predicate ValidLengths(lens: seq<nat>)
  {
    |lens| >= 1 && forall i :: 0 <= i < |lens| ==> lens[i] >= 1
  }

  /** QTextBlock.position() of block i. */
  function BlockPos(lens: seq<nat>, i: nat): nat
    requires i <= |lens|
  {
    if i == 0 then 0 else BlockPos(lens, i - 1) + lens[i - 1]
  }

  /** QTextDocument.characterCount(). */
  function Total(lens: seq<nat>): nat
  {
    BlockPos(lens, |lens|)
  }

  lemma {:induction false} BlockPosMono(lens: seq<nat>, i: nat, j: nat)
    requires i <= j <= |lens|
    ensures BlockPos(lens, i) <= BlockPos(lens, j)
    decreases j
  {
    if i < j {
      BlockPosMono(lens, i, j - 1);
    }
  }

  /** A block ends at or before the start of every later block. */
  lemma {:induction false} BlockEndBefore(lens: seq<nat>, i: nat, j: nat)
    requires i < j <= |lens|
    ensures BlockPos(lens, i) + lens[i] <= BlockPos(lens, j)
  {
    assert BlockPos(lens, i + 1) == BlockPos(lens, i) + lens[i];
    BlockPosMono(lens, i + 1, j);
  }

  function BlockAtFrom(lens: seq<nat>, p: nat, i: nat): (b: nat)
    requires i < |lens| && BlockPos(lens, i) <= p < Total(lens)
    ensures i <= b < |lens| && BlockPos(lens, b) <= p < BlockPos(lens, b) + lens[b]
    decreases |lens| - i
  {
    assert BlockPos(lens, i + 1) == BlockPos(lens, i) + lens[i];
    if p < BlockPos(lens, i) + lens[i] then i
    else BlockAtFrom(lens, p, i + 1)
  }

  /** The number of the block that contains position p. */
  function BlockAt(lens: seq<nat>, p: nat): (b: nat)
    requires |lens| >= 1 && p < Total(lens)
    ensures b < |lens| && BlockPos(lens, b) <= p < BlockPos(lens, b) + lens[b]
  {
    BlockAtFrom(lens, p, 0)
  }

  /** Exactly one block contains a position. */
  lemma BlockAtUnique(lens: seq<nat>, p: nat, b: nat)
    requires b < |lens| && BlockPos(lens, b) <= p < BlockPos(lens, b) + lens[b]
    ensures p < Total(lens) && BlockAt(lens, p) == b
  {
    BlockEndBefore(lens, b, |lens|);
    var a := BlockAt(lens, p);
    if a < b {
      BlockEndBefore(lens, a, b);
    } else if b < a {
      BlockEndBefore(lens, b, a);
    }
  }

  /** A position at or after the end of block b lies in a later block. */
  lemma BlockAtAfter(lens: seq<nat>, p: nat, b: nat)
    requires |lens| >= 1 && p < Total(lens) && b < |lens| && p >= BlockPos(lens, b) + lens[b]
    ensures BlockAt(lens, p) > b
  {
    var a := BlockAt(lens, p);
    if a <= b {
      BlockPosMono(lens, a, b);
    }
  }

  /** A position before the end of block b lies in block b or an earlier one. */
  lemma BlockAtBefore(lens: seq<nat>, p: nat, b: nat)
    requires |lens| >= 1 && p < Total(lens) && b < |lens| && p < BlockPos(lens, b) + lens[b]
    ensures BlockAt(lens, p) <= b
  {
    var a := BlockAt(lens, p);
    if a > b {
      BlockEndBefore(lens, b, a);
    }
  }

  /** A position at or after the start of block b lies in block b or a later one. */
  lemma BlockAtFromStart(lens: seq<nat>, p: nat, b: nat)
    requires |lens| >= 1 && p < Total(lens) && b < |lens| && BlockPos(lens, b) <= p
    ensures BlockAt(lens, p) >= b
  {
    var a := BlockAt(lens, p);
    if a < b {
      BlockEndBefore(lens, a, b);
    }
  }

  /** QTextDocument.findBlock(p): the block holding p, or the invalid block past the end. */
  function FindBlock(lens: seq<nat>, p: nat): (r: Option<nat>)
    requires |lens| >= 1
    ensures r.Some? <==> p < Total(lens)
    ensures r.Some? ==> r.value < |lens| && BlockPos(lens, r.value) <= p < BlockPos(lens, r.value) + lens[r.value]
  {
    if p < Total(lens) then Some(BlockAt(lens, p)) else None
  }

  /** The block lengths of a plain text: one block per line, each counting its separator. */
  function BlockLengths(text: string): seq<nat>
    decreases |text|
  {
    var i := IndexOf(text, '\n');
    if i == |text| then [|text| + 1] else [i + 1] + BlockLengths(text[i + 1..])
  }

  /** The blocks are the text's lines split at '\n', each one longer by its separator. */
  lemma {:induction false} BlockLengthsAreLines(text: string)
    ensures |BlockLengths(text)| == |SplitOn(text, '\n')|
    ensures forall k :: 0 <= k < |BlockLengths(text)| ==> BlockLengths(text)[k] == |SplitOn(text, '\n')[k]| + 1
    decreases |text|
  {
    var i := IndexOf(text, '\n');
    if i < |text| {
      BlockLengthsAreLines(text[i + 1..]);
    }
  }

  lemma {:induction false} BlockPosCons(x: nat, lens: seq<nat>, b: nat)
    requires b <= |lens|
    ensures BlockPos([x] + lens, b + 1) == x + BlockPos(lens, b)
    decreases b
  {
    if b > 0 {
      BlockPosCons(x, lens, b - 1);
      assert ([x] + lens)[b] == lens[b - 1];
    }
  }

  /** Block b of lens is a line of text: no '\n' inside, a '\n' or the text's end after it, a '\n' or the text's start before it. */
  ghost predicate LineShaped(text: string, lens: seq<nat>, b: nat)
    requires b < |lens|
  {
    var p := BlockPos(lens, b);
    var q := p + lens[b] - 1;
    && 0 <= q <= |text|
    && (q == |text| <==> b == |lens| - 1)
    && (q < |text| ==> text[q] == '\n')
    && (forall j :: p <= j < q ==> text[j] != '\n')
    && (p == 0 || (p - 1 < |text| && text[p - 1] == '\n'))
  }

  /** Moving one line further into the text keeps every later block line-shaped. */
  lemma ShapedAfterFirstLine(text: string, i: nat, rest: seq<nat>, b: nat)
    requires i < |text| && text[i] == '\n'
    requires 0 < b <= |rest|
    requires LineShaped(text[i + 1..], rest, b - 1)
    ensures LineShaped(text, [i + 1] + rest, b)
  {
    var lens := [i + 1] + rest;
    var tail := text[i + 1..];
    BlockPosCons(i + 1, rest, b - 1);
    assert lens[b] == rest[b - 1];
    var p := BlockPos(lens, b);
    var q := p + lens[b] - 1;
    assert p == i + 1 + BlockPos(rest, b - 1);
    forall j | p <= j < q
      ensures text[j] != '\n'
    {
      assert text[j] == tail[j - (i + 1)];
    }
    if q < |text| {
      assert text[q] == tail[q - (i + 1)];
    }
    if p - 1 > i {
      assert text[p - 1] == tail[p - 1 - (i + 1)];
    }
  }

  /**
   * The blocks of a text are its lines, and the block lengths add up to the
   * text length plus one (QTextDocument.characterCount()).
   */
  lemma {:induction false} BlockShape(text: string)
    ensures ValidLengths(BlockLengths(text))
    ensures Total(BlockLengths(text)) == |text| + 1
    ensures forall b :: 0 <= b < |BlockLengths(text)| ==> LineShaped(text, BlockLengths(text), b)
    decreases |text|
  {
    var lens := BlockLengths(text);
    var i := IndexOf(text, '\n');
    if i == |text| {
      assert LineShaped(text, lens, 0);
    } else {
      var tail := text[i + 1..];
      var rest := BlockLengths(tail);
      BlockShape(tail);
      assert lens == [i + 1] + rest;
      BlockPosCons(i + 1, rest, |rest|);
      forall b | 0 <= b < |lens|
        ensures LineShaped(text, lens, b)
      {
        if b > 0 {
          ShapedAfterFirstLine(text, i, rest, b);
        }
      }
    }
  }

  /** A QTextCursor: the anchor and the position, the selection lying between them. */
  datatype TextCursor = TextCursor(anchor: nat, position: nat)

  /** QTextCursor.selection().toPlainText(): the text between anchor and position. */
  function SelectedText(text: string, c: TextCursor): (s: string)
    requires c.anchor <= |text| && c.position <= |text|
    ensures |s| == Max(c.anchor, c.position) - Min(c.anchor, c.position)
    ensures forall j :: 0 <= j < |s| ==> s[j] == text[Min(c.anchor, c.position) + j]
  {
    text[Min(c.anchor, c.position)..Max(c.anchor, c.position)]
  }

  /** QTextCursor.insertText(): the selection, if any, replaced by s; without one s is inserted at the position. */
  function InsertText(text: string, c: TextCursor, s: string): (r: string)
    requires c.anchor <= |text| && c.position <= |text|
    ensures |r| == |text| - (Max(c.anchor, c.position) - Min(c.anchor, c.position)) + |s|
  {
    text[..Min(c.anchor, c.position)] + s + text[Max(c.anchor, c.position)..]
  }

  /** The inserted text is what a cursor over the place it went to selects, and the text around it is kept. */
  lemma InsertedSelected(text: string, c: TextCursor, s: string)
    requires c.anchor <= |text| && c.position <= |text|
    ensures var lo := Min(c.anchor, c.position);
      && SelectedText(InsertText(text, c, s), TextCursor(lo, lo + |s|)) == s
      && InsertText(text, c, s)[..lo] == text[..lo]
      && InsertText(text, c, s)[lo + |s|..] == text[Max(c.anchor, c.position)..]
  {
    var lo := Min(c.anchor, c.position);
    var r := InsertText(text, c, s);
    assert r[lo..lo + |s|] == s;
    assert r[..lo] == text[..lo];
  }

  /** A QTextDocument with its text and the format ranges of every block's layout. */
  class TextDocument {
    var text: string
    var layouts: seq<seq<FormatRange>>

    /** The block lengths of the current text. */
    function Lengths(): (lens: seq<nat>)
      reads this`text
      ensures ValidLengths(lens) && Total(lens) == |text| + 1
    {
      BlockShape(text);
      BlockLengths(text)
    }

    /** QTextDocument.characterCount(): the text and the separator Qt keeps after it. */
    function CharacterCount(): (n: nat)
      reads this`text
      ensures n == |text| + 1
    {
      Total(Lengths())
    }

    /** Every block has one layout. */
    predicate Valid()
      reads this
    {
      |layouts| == |BlockLengths(text)|
    }

    constructor (text: string)
      ensures this.text == text && Valid()
      ensures forall b :: 0 <= b < |layouts| ==> layouts[b] == []
    {
      this.text := text;
      layouts := seq(|BlockLengths(text)|, _ => []);
    }
  }
}

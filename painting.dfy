/**
 * Painting format ranges onto the block layouts of a document: the loop that
 * both the parceqt and the livelexqt highlighters run.
 *
 * Each range (document positions [pos, end)) is cut at block boundaries into
 * one FormatRange per block it touches; the block separator is never part of
 * a piece. The pieces are collected per block and stored in that block's
 * layout, and every block of the painted span that no range touches is
 * cleared.
 */
module Painting {
  import opened Wrappers
  import opened QtFormat
  import opened QtText

  /** A range of the formatter's output: document positions [pos, end) in one format. */
  datatype TextRange = TextRange(pos: nat, end: nat, format: CharFormat)

  /** Each range ends at or before the start of the next one. */
  predicate Ordered(rs: seq<TextRange>)
    decreases |rs|
  {
    |rs| <= 1 || (rs[0].end <= rs[1].pos && Ordered(rs[1..]))
  }

  /**
   * Ranges as a formatter yields them for a span [start, end): each one
   * non-empty and starting inside the span, in document order and not
   * overlapping.
   */
  predicate RangesOk(rs: seq<TextRange>, start: nat, end: nat)
  {
    && (forall i :: 0 <= i < |rs| ==> start <= rs[i].pos < rs[i].end && rs[i].pos < end)
    && Ordered(rs)
  }

  /** Of two ordered non-empty ranges, the earlier one ends before the later one starts. */
  lemma {:induction false} OrderedApart(rs: seq<TextRange>, i: nat, j: nat)
    requires forall m :: 0 <= m < |rs| ==> rs[m].pos < rs[m].end
    requires Ordered(rs) && i < j < |rs|
    ensures rs[i].end <= rs[j].pos
    decreases j
  {
    if i > 0 {
      OrderedApart(rs[1..], i - 1, j - 1);
    } else if j > 1 {
      OrderedApart(rs[1..], 0, j - 1);
    }
  }

  /**
   * One painting pass: the block lengths, the first and last block of the
   * span, the span's end position, the formats kept at the head of the first
   * block, and the ranges to paint.
   */
  datatype Pass = Pass(lens: seq<nat>, first: nat, last: nat, end: nat, head: seq<FormatRange>, ranges: seq<TextRange>)

  predicate ValidPass(p: Pass)
  {
    && ValidLengths(p.lens)
    && p.first <= p.last < |p.lens|
    && p.end < BlockPos(p.lens, p.last) + p.lens[p.last]
    && p.end < Total(p.lens)
    && RangesOk(p.ranges, BlockPos(p.lens, p.first), p.end)
  }

  /** Where a range stops being painted: its end, or the end of the span. */
  function ClipEnd(p: Pass, f: TextRange): nat
  {
    Min(p.end, f.end)
  }

  /** Where block b ends: its position plus its length, separator included. */
  function BlockEnd(lens: seq<nat>, b: nat): nat
    requires b < |lens|
  {
    BlockPos(lens, b) + lens[b]
  }

  /**
   * The piece of range f that lands in block b, relative to the block's
   * position: it starts where the range starts, or at the block's start when
   * the range began in an earlier block; it stops where the range is
   * clipped, or just before the block's separator when the range goes on.
   */
  function PieceOf(p: Pass, f: TextRange, b: nat): seq<FormatRange>
    requires b < |p.lens|
  {
    var pos := BlockPos(p.lens, b);
    if f.pos < BlockEnd(p.lens, b) && pos < ClipEnd(p, f) then
      var s := if f.pos >= pos then f.pos - pos else 0;
      var l := if ClipEnd(p, f) <= BlockEnd(p.lens, b) then ClipEnd(p, f) - pos - s else p.lens[b] - s - 1;
      [FormatRange(s, l, f.format)]
    else []
  }

  /** The pieces that the first n ranges of the pass put into block b, in range order. */
  function PiecesUpTo(p: Pass, n: nat, b: nat): seq<FormatRange>
    requires n <= |p.ranges| && b < |p.lens|
  {
    if n == 0 then [] else PiecesUpTo(p, n - 1, b) + PieceOf(p, p.ranges[n - 1], b)
  }

  /**
   * What a piece means: a position x of block b is covered by the piece of
   * range f exactly when the range covers x (up to where it is clipped),
   * except for the block's separator when the range runs on into the next
   * block.
   */
  lemma PieceCovers(p: Pass, f: TextRange, b: nat, x: nat)
    requires b < |p.lens| && BlockPos(p.lens, b) <= x < BlockEnd(p.lens, b)
    ensures
      (&& PieceOf(p, f, b) != []
       && BlockPos(p.lens, b) + PieceOf(p, f, b)[0].start <= x
       && x < BlockPos(p.lens, b) + PieceOf(p, f, b)[0].start + PieceOf(p, f, b)[0].length)
      <==>
      (&& f.pos <= x < ClipEnd(p, f)
       && !(x == BlockEnd(p.lens, b) - 1 && ClipEnd(p, f) > BlockEnd(p.lens, b)))
  {
  }

  /** Each piece starts inside the block and ends no earlier than it starts, and the earlier ones end before the later ones start. */
  predicate PiecesApart(fs: seq<FormatRange>)
  {
    && (forall i :: 0 <= i < |fs| ==> 0 <= fs[i].start && 0 <= fs[i].length)
    && (forall i, j :: 0 <= i < j < |fs| ==> RangeEnd(fs[i]) <= fs[j].start)
  }

  /** The piece of a range in a block ends, in document positions, no later than the range. */
  lemma PieceEnds(p: Pass, f: TextRange, b: nat)
    requires ValidPass(p) && b < |p.lens| && f.pos < f.end && f.pos < p.end
    ensures forall q :: q in PieceOf(p, f, b) ==>
      && 0 <= q.start && 0 <= q.length
      && BlockPos(p.lens, b) + RangeEnd(q) <= f.end
      && (f.pos >= BlockPos(p.lens, b) ==> q.start == f.pos - BlockPos(p.lens, b))
      && (f.pos < BlockPos(p.lens, b) ==> q.start == 0)
  {
  }

  /**
   * The pieces the first n ranges put into a block do not overlap and come
   * in document order, each ending no later than range n - 1.
   */
  lemma {:induction false} PiecesOrdered(p: Pass, n: nat, b: nat)
    requires ValidPass(p) && n <= |p.ranges| && b < |p.lens|
    ensures PiecesApart(PiecesUpTo(p, n, b))
    ensures n > 0 ==> forall q :: q in PiecesUpTo(p, n, b) ==> BlockPos(p.lens, b) + RangeEnd(q) <= p.ranges[n - 1].end
  {
    if n > 0 {
      var fs := PiecesUpTo(p, n, b);
      var before := PiecesUpTo(p, n - 1, b);
      var f := p.ranges[n - 1];
      var piece := PieceOf(p, f, b);
      assert fs == before + piece;
      PiecesOrdered(p, n - 1, b);
      PieceEnds(p, f, b);
      var pos := BlockPos(p.lens, b);
      if n > 1 {
        OrderedApart(p.ranges, n - 2, n - 1);
      }
      forall q | q in before
        ensures pos + RangeEnd(q) <= f.pos
      {
      }
      forall i, j | 0 <= i < j < |fs|
        ensures RangeEnd(fs[i]) <= fs[j].start
      {
        if j >= |before| {
          assert fs[j] in piece && fs[i] in before;
        }
      }
      forall q | q in fs
        ensures BlockPos(p.lens, b) + RangeEnd(q) <= f.end
      {
        if q in before {
          assert pos + RangeEnd(q) <= f.pos;
        }
      }
    }
  }

  /** A block that none of the first n ranges reaches gets no pieces from them. */
  lemma {:induction false} NoPieces(p: Pass, n: nat, b: nat)
    requires n <= |p.ranges| && b < |p.lens|
    requires forall i :: 0 <= i < n ==>
      !(p.ranges[i].pos < BlockEnd(p.lens, b) && BlockPos(p.lens, b) < ClipEnd(p, p.ranges[i]))
    ensures PiecesUpTo(p, n, b) == []
  {
    if n > 0 {
      NoPieces(p, n - 1, b);
    }
  }

  /** The formats a pass keeps at the head of block b before painting it. */
  function Prefix(p: Pass, b: nat): seq<FormatRange>
  {
    if b == p.first then p.head else []
  }

  /** What a pass stores in block b of its span. */
  function Expected(p: Pass, b: nat): seq<FormatRange>
    requires b < |p.lens|
  {
    Prefix(p, b) + PiecesUpTo(p, |p.ranges|, b)
  }

  /**
   * A block of the span that no range reaches is cleared, unless it is the
   * first block, which keeps the formats before the start of the pass.
   */
  lemma ClearedWhenUntouched(p: Pass, b: nat)
    requires b < |p.lens|
    requires forall i :: 0 <= i < |p.ranges| ==>
      !(p.ranges[i].pos < BlockEnd(p.lens, b) && BlockPos(p.lens, b) < ClipEnd(p, p.ranges[i]))
    ensures Expected(p, b) == if b == p.first then p.head else []
  {
    NoPieces(p, |p.ranges|, b);
  }

  /** The layouts after the pass has stored the blocks from its first block up to, not including, upto. */
  function Painted(p: Pass, layouts: seq<seq<FormatRange>>, upto: nat): (r: seq<seq<FormatRange>>)
    requires |layouts| == |p.lens| && upto <= |p.lens|
    ensures |r| == |layouts|
  {
    if upto <= p.first then layouts
    else Painted(p, layouts, upto - 1)[upto - 1 := Expected(p, upto - 1)]
  }

  /** Painting changes exactly the blocks from the first one up to upto, each to what the pass expects there. */
  lemma {:induction false} PaintedAt(p: Pass, layouts: seq<seq<FormatRange>>, upto: nat, b: nat)
    requires |layouts| == |p.lens| && upto <= |p.lens| && b < |layouts|
    ensures Painted(p, layouts, upto)[b] == if p.first <= b < upto then Expected(p, b) else layouts[b]
  {
    if upto > p.first && b != upto - 1 {
      PaintedAt(p, layouts, upto - 1, b);
    }
  }

  /** The first k ranges are painted no further than block blk. */
  predicate EndsBy(p: Pass, k: nat, blk: nat)
    requires k <= |p.ranges| && blk < |p.lens|
  {
    k == 0 || ClipEnd(p, p.ranges[k - 1]) <= BlockEnd(p.lens, blk)
  }

  /** Range k, if there is one, starts after block blk. */
  predicate StartsAfter(p: Pass, k: nat, blk: nat)
    requires blk < |p.lens|
  {
    k < |p.ranges| ==> p.ranges[k].pos >= BlockEnd(p.lens, blk)
  }

  /** Ranges painted no further than block blk put nothing into a later block. */
  lemma {:induction false} PiecesNone(p: Pass, k: nat, blk: nat, b: nat)
    requires ValidPass(p) && k <= |p.ranges| && blk < b < |p.lens|
    requires EndsBy(p, k, blk)
    ensures PiecesUpTo(p, k, b) == []
  {
    if k > 0 {
      BlockEndBefore(p.lens, blk, b);
      if k > 1 {
        OrderedApart(p.ranges, k - 2, k - 1);
      }
      PiecesNone(p, k - 1, blk, b);
    }
  }

  /** Ranges from index k on, when range k starts after block blk, put nothing more into it. */
  lemma {:induction false} PiecesRest(p: Pass, k: nat, n: nat, blk: nat)
    requires ValidPass(p) && k <= n <= |p.ranges| && blk < |p.lens|
    requires StartsAfter(p, k, blk)
    ensures PiecesUpTo(p, n, blk) == PiecesUpTo(p, k, blk)
  {
    if k < n {
      if k < n - 1 {
        OrderedApart(p.ranges, k, n - 1);
      }
      PiecesRest(p, k, n - 1, blk);
    }
  }

  /**
   * The block painting has reached once range k is done: the one holding
   * the last position the range covers, up to the end of the span.
   */
  function EndBlock(p: Pass, k: nat): (b: nat)
    requires ValidPass(p) && k < |p.ranges|
    ensures p.first <= b <= p.last
    ensures BlockPos(p.lens, b) < ClipEnd(p, p.ranges[k]) <= BlockEnd(p.lens, b)
  {
    var x := ClipEnd(p, p.ranges[k]) - 1;
    BlockAtFromStart(p.lens, x, p.first);
    BlockAtBefore(p.lens, x, p.last);
    BlockAt(p.lens, x)
  }

  /** A block where range k's clipped end lies is the block EndBlock names. */
  lemma EndBlockIs(p: Pass, k: nat, b: nat)
    requires ValidPass(p) && k < |p.ranges| && b < |p.lens|
    requires BlockPos(p.lens, b) < ClipEnd(p, p.ranges[k]) <= BlockEnd(p.lens, b)
    ensures EndBlock(p, k) == b
  {
    BlockAtUnique(p.lens, ClipEnd(p, p.ranges[k]) - 1, b);
  }

  /**
   * The blocks where an interruptible run asks whether the user typed, for
   * ranges k on: after each range, when the block reached is past num, and
   * num then moves to 1000 blocks past that block.
   */
  function Checks(p: Pass, k: nat, num: nat): seq<nat>
    requires ValidPass(p) && k <= |p.ranges|
    decreases |p.ranges| - k
  {
    if k == |p.ranges| then []
    else if EndBlock(p, k) > num then [EndBlock(p, k)] + Checks(p, k + 1, EndBlock(p, k) + 1000)
    else Checks(p, k + 1, num)
  }

  /** The checks lie past num and inside the span, each more than 1000 blocks after the one before. */
  lemma {:induction false} ChecksSpaced(p: Pass, k: nat, num: nat)
    requires ValidPass(p) && k <= |p.ranges|
    ensures forall i :: 0 <= i < |Checks(p, k, num)| ==> num < Checks(p, k, num)[i] <= p.last
    ensures forall i, j :: 0 <= i < j < |Checks(p, k, num)| ==> Checks(p, k, num)[i] + 1000 < Checks(p, k, num)[j]
    decreases |p.ranges| - k
  {
    if k < |p.ranges| {
      var b := EndBlock(p, k);
      if b > num {
        ChecksSpaced(p, k + 1, b + 1000);
        var rest := Checks(p, k + 1, b + 1000);
        var bs := Checks(p, k, num);
        assert bs == [b] + rest;
        forall i | 0 < i < |bs| ensures bs[i] == rest[i - 1] && b + 1000 < bs[i] {
        }
      } else {
        ChecksSpaced(p, k + 1, num);
      }
    }
  }

  /** The first of the blocks bs where the user typed, if any. */
  function FirstTyped(bs: seq<nat>, typed: nat -> bool): Option<nat>
  {
    if bs == [] then None
    else if typed(bs[0]) then Some(bs[0])
    else FirstTyped(bs[1..], typed)
  }

  /** FirstTyped finds a block exactly when the user typed at one of them, and then the earliest such block. */
  lemma {:induction false} FirstTypedIsFirst(bs: seq<nat>, typed: nat -> bool)
    ensures FirstTyped(bs, typed).None? <==> forall i :: 0 <= i < |bs| ==> !typed(bs[i])
    ensures FirstTyped(bs, typed).Some? ==>
      exists i :: 0 <= i < |bs| && bs[i] == FirstTyped(bs, typed).value && typed(bs[i]) && forall j :: 0 <= j < i ==> !typed(bs[j])
  {
    if bs != [] && !typed(bs[0]) {
      FirstTypedIsFirst(bs[1..], typed);
      assert forall i :: 1 <= i < |bs| ==> bs[i] == bs[1..][i - 1];
      if FirstTyped(bs, typed).Some? {
        var i :| 0 <= i < |bs[1..]| && bs[1..][i] == FirstTyped(bs, typed).value && typed(bs[1..][i]) && forall j :: 0 <= j < i ==> !typed(bs[1..][j]);
        assert bs[i + 1] == bs[1..][i];
      }
    }
  }

  /** Where a run of the pass stops: at the first check where the user typed, and never when it is not interruptible. */
  function StopBlock(p: Pass, interruptible: bool, typed: nat -> bool): Option<nat>
    requires ValidPass(p)
  {
    if interruptible then FirstTyped(Checks(p, 0, p.first + 100), typed) else None
  }

  /** A run stops only when interruptible, where the user typed, more than 100 blocks past the first, inside the span. */
  lemma StopBlockBounds(p: Pass, interruptible: bool, typed: nat -> bool)
    requires ValidPass(p)
    ensures StopBlock(p, interruptible, typed).Some? ==>
      var b := StopBlock(p, interruptible, typed).value;
      interruptible && typed(b) && p.first + 100 < b <= p.last
  {
    var bs := Checks(p, 0, p.first + 100);
    ChecksSpaced(p, 0, p.first + 100);
    FirstTypedIsFirst(bs, typed);
    if interruptible && FirstTyped(bs, typed).Some? {
      var i :| 0 <= i < |bs| && bs[i] == FirstTyped(bs, typed).value && typed(bs[i]);
    }
  }

  /** One range further: the check after range k, if there is one, comes first. */
  lemma CheckStep(p: Pass, k: nat, num: nat, typed: nat -> bool)
    requires ValidPass(p) && k < |p.ranges|
    ensures var b := EndBlock(p, k);
      FirstTyped(Checks(p, k, num), typed) ==
        if b <= num then FirstTyped(Checks(p, k + 1, num), typed)
        else if typed(b) then Some(b)
        else FirstTyped(Checks(p, k + 1, b + 1000), typed)
  {
    var b := EndBlock(p, k);
    if b > num {
      var rest := Checks(p, k + 1, b + 1000);
      assert ([b] + rest)[1..] == rest;
    }
  }

  /** Storing a finished block: what was collected for it is what the pass expects there. */
  lemma StoreBlock(p: Pass, L0: seq<seq<FormatRange>>, layouts: seq<seq<FormatRange>>, blk: nat, k: nat, formats: seq<FormatRange>)
    requires ValidPass(p) && |L0| == |p.lens| && p.first <= blk <= p.last && k <= |p.ranges|
    requires layouts == Painted(p, L0, blk)
    requires formats == Prefix(p, blk) + PiecesUpTo(p, k, blk)
    requires StartsAfter(p, k, blk)
    ensures layouts[blk := formats] == Painted(p, L0, blk + 1)
  {
    PiecesRest(p, k, |p.ranges|, blk);
  }

  /** Moving to the next block: the ranges seen so far put nothing into it. */
  lemma NextBlockEmpty(p: Pass, blk: nat, k: nat)
    requires ValidPass(p) && p.first <= blk < p.last && k <= |p.ranges|
    requires EndsBy(p, k, blk)
    ensures Prefix(p, blk + 1) + PiecesUpTo(p, k, blk + 1) == []
    ensures EndsBy(p, k, blk + 1)
  {
    PiecesNone(p, k, blk, blk + 1);
  }

  /** Past the last range's end, the next block is painted empty. */
  lemma ClearNext(p: Pass, L0: seq<seq<FormatRange>>, layouts: seq<seq<FormatRange>>, blk: nat)
    requires ValidPass(p) && |L0| == |p.lens| && p.first <= blk < p.last
    requires layouts == Painted(p, L0, blk + 1)
    requires EndsBy(p, |p.ranges|, blk)
    ensures layouts[blk + 1 := []] == Painted(p, L0, blk + 2)
    ensures EndsBy(p, |p.ranges|, blk + 1)
  {
    NextBlockEmpty(p, blk, |p.ranges|);
    assert Expected(p, blk + 1) == [];
  }

  /** A range that goes on past block blk fills it up to, not including, its separator. */
  lemma AddMiddlePiece(p: Pass, blk: nat, k: nat, formats: seq<FormatRange>, start: int)
    requires ValidPass(p) && blk < |p.lens| && k < |p.ranges|
    requires p.ranges[k].pos < BlockEnd(p.lens, blk) < ClipEnd(p, p.ranges[k])
    requires start == if p.ranges[k].pos >= BlockPos(p.lens, blk) then p.ranges[k].pos - BlockPos(p.lens, blk) else 0
    requires formats == Prefix(p, blk) + PiecesUpTo(p, k, blk)
    ensures formats + [FormatRange(start, p.lens[blk] - start - 1, p.ranges[k].format)]
      == Prefix(p, blk) + PiecesUpTo(p, k + 1, blk)
  {
  }

  /** A position before the clipped end of range k is not past the start of range k + 1. */
  lemma NextRangeAfter(p: Pass, k: nat, pos: nat)
    requires ValidPass(p) && k < |p.ranges| && pos < ClipEnd(p, p.ranges[k])
    ensures k + 1 < |p.ranges| ==> pos <= p.ranges[k + 1].pos
  {
    if k + 1 < |p.ranges| {
      OrderedApart(p.ranges, k, k + 1);
    }
  }

  /** A range that ends in block blk fills it up to where the range is clipped. */
  lemma AddLastPiece(p: Pass, blk: nat, k: nat, formats: seq<FormatRange>, start: int)
    requires ValidPass(p) && blk < |p.lens| && k < |p.ranges|
    requires p.ranges[k].pos < BlockEnd(p.lens, blk) && BlockPos(p.lens, blk) < ClipEnd(p, p.ranges[k]) <= BlockEnd(p.lens, blk)
    requires start == if p.ranges[k].pos >= BlockPos(p.lens, blk) then p.ranges[k].pos - BlockPos(p.lens, blk) else 0
    requires formats == Prefix(p, blk) + PiecesUpTo(p, k, blk)
    ensures formats + [FormatRange(start, ClipEnd(p, p.ranges[k]) - BlockPos(p.lens, blk) - start, p.ranges[k].format)]
      == Prefix(p, blk) + PiecesUpTo(p, k + 1, blk)
    ensures EndsBy(p, k + 1, blk)
    ensures k + 1 < |p.ranges| ==> BlockPos(p.lens, blk) <= p.ranges[k + 1].pos
  {
    NextRangeAfter(p, k, BlockPos(p.lens, blk));
  }

  /**
   * Stores the formats collected for block blk in its layout and moves on to
   * the next block with nothing collected yet. The first kDone ranges are
   * all that go into block blk; the first kNext are painted no further.
   */
  method FlushBlock(doc: TextDocument, p: Pass, ghost L0: seq<seq<FormatRange>>, ghost kDone: nat, ghost kNext: nat, blk: nat, formats: seq<FormatRange>)
    returns (blk': nat, pos': nat, formats': seq<FormatRange>)
    requires ValidPass(p) && |L0| == |p.lens| && kNext <= kDone <= |p.ranges|
    requires p.first <= blk < p.last
    requires doc.layouts == Painted(p, L0, blk)
    requires formats == Prefix(p, blk) + PiecesUpTo(p, kDone, blk)
    requires StartsAfter(p, kDone, blk) && EndsBy(p, kNext, blk)
    modifies doc`layouts
    ensures blk' == blk + 1 && pos' == BlockPos(p.lens, blk') == BlockEnd(p.lens, blk)
    ensures doc.layouts == Painted(p, L0, blk')
    ensures formats' == Prefix(p, blk') + PiecesUpTo(p, kNext, blk') == []
    ensures EndsBy(p, kNext, blk')
  {
    StoreBlock(p, L0, doc.layouts, blk, kDone, formats);
    NextBlockEmpty(p, blk, kNext);
    doc.layouts := doc.layouts[blk := formats];
    blk' := blk + 1;
    pos' := BlockEnd(p.lens, blk);  // the next block's position
    formats' := [];
  }

  /** Every range starts before the end of the last block of the span. */
  lemma StartsBeforeLast(p: Pass, k: nat, blk: nat)
    requires ValidPass(p) && k < |p.ranges| && blk <= p.last
    requires p.ranges[k].pos >= BlockEnd(p.lens, blk)
    ensures blk < p.last
  {
  }

  /**
   * Stores and leaves every block that ends at or before the start of range
   * k, returning the block that range k starts in.
   */
  method SkipBlocks(doc: TextDocument, p: Pass, ghost L0: seq<seq<FormatRange>>, k: nat, blk: nat, pos: nat, formats: seq<FormatRange>)
    returns (blk': nat, pos': nat, formats': seq<FormatRange>)
    requires ValidPass(p) && |L0| == |p.lens| && k < |p.ranges|
    requires p.first <= blk <= p.last && pos == BlockPos(p.lens, blk) && pos <= p.ranges[k].pos
    requires doc.layouts == Painted(p, L0, blk)
    requires formats == Prefix(p, blk) + PiecesUpTo(p, k, blk)
    requires EndsBy(p, k, blk)
    modifies doc`layouts
    ensures blk <= blk' <= p.last && pos' == BlockPos(p.lens, blk')
    ensures pos' <= p.ranges[k].pos < BlockEnd(p.lens, blk')
    ensures doc.layouts == Painted(p, L0, blk')
    ensures formats' == Prefix(p, blk') + PiecesUpTo(p, k, blk')
    ensures EndsBy(p, k, blk')
  {
    var f := p.ranges[k];
    blk', pos', formats' := blk, pos, formats;
    while f.pos >= pos' + p.lens[blk']
      invariant blk <= blk' <= p.last
      invariant pos' == BlockPos(p.lens, blk') && pos' <= f.pos
      invariant doc.layouts == Painted(p, L0, blk')
      invariant formats' == Prefix(p, blk') + PiecesUpTo(p, k, blk')
      invariant EndsBy(p, k, blk')
      decreases p.last - blk'
    {
      StartsBeforeLast(p, k, blk');
      blk', pos', formats' := FlushBlock(doc, p, L0, k, k, blk', formats');
    }
  }

  /**
   * Range k goes on past block blk: adds its piece up to the block's
   * separator, stores the block and moves on to the next one.
   */
  method CutAtSeparator(doc: TextDocument, p: Pass, ghost L0: seq<seq<FormatRange>>, k: nat, blk: nat, start: int, formats: seq<FormatRange>)
    returns (blk': nat, pos': nat, formats': seq<FormatRange>)
    requires ValidPass(p) && |L0| == |p.lens| && k < |p.ranges|
    requires p.first <= blk <= p.last
    requires p.ranges[k].pos < BlockEnd(p.lens, blk) < ClipEnd(p, p.ranges[k])
    requires start == if p.ranges[k].pos >= BlockPos(p.lens, blk) then p.ranges[k].pos - BlockPos(p.lens, blk) else 0
    requires doc.layouts == Painted(p, L0, blk)
    requires formats == Prefix(p, blk) + PiecesUpTo(p, k, blk)
    requires EndsBy(p, k, blk)
    modifies doc`layouts
    ensures blk' == blk + 1 <= p.last && pos' == BlockPos(p.lens, blk') == BlockEnd(p.lens, blk)
    ensures doc.layouts == Painted(p, L0, blk')
    ensures formats' == Prefix(p, blk') + PiecesUpTo(p, k, blk') == []
    ensures EndsBy(p, k, blk')
  {
    AddMiddlePiece(p, blk, k, formats, start);
    if k + 1 < |p.ranges| {
      OrderedApart(p.ranges, k, k + 1);
    }
    blk', pos', formats' := FlushBlock(doc, p, L0, k + 1, k, blk, formats + [FormatRange(start, p.lens[blk] - start - 1, p.ranges[k].format)]);
  }

  /**
   * Range k starts in block blk: stores every block the range runs past,
   * each with the range's piece up to its separator, and returns the block
   * where the range ends with the formats collected for it so far and the
   * range's start relative to that block (0 when it began earlier).
   */
  method CutToLastBlock(doc: TextDocument, p: Pass, ghost L0: seq<seq<FormatRange>>, k: nat, blk: nat, pos: nat, formats: seq<FormatRange>)
    returns (blk': nat, pos': nat, formats': seq<FormatRange>, start: int)
    requires ValidPass(p) && |L0| == |p.lens| && k < |p.ranges|
    requires p.first <= blk <= p.last && pos == BlockPos(p.lens, blk)
    requires pos <= p.ranges[k].pos < BlockEnd(p.lens, blk)
    requires doc.layouts == Painted(p, L0, blk)
    requires formats == Prefix(p, blk) + PiecesUpTo(p, k, blk)
    requires EndsBy(p, k, blk)
    modifies doc`layouts
    ensures blk <= blk' <= p.last && pos' == BlockPos(p.lens, blk')
    ensures p.ranges[k].pos < BlockEnd(p.lens, blk') && pos' < ClipEnd(p, p.ranges[k]) <= BlockEnd(p.lens, blk')
    ensures start == if p.ranges[k].pos >= pos' then p.ranges[k].pos - pos' else 0
    ensures doc.layouts == Painted(p, L0, blk')
    ensures formats' == Prefix(p, blk') + PiecesUpTo(p, k, blk')
  {
    var f := p.ranges[k];
    blk', pos', formats' := blk, pos, formats;
    start := f.pos - pos;
    var fEnd := Min(p.end, f.end);
    while fEnd > pos' + p.lens[blk']
      invariant blk <= blk' <= p.last
      invariant pos' == BlockPos(p.lens, blk') && pos' < fEnd
      invariant f.pos < BlockEnd(p.lens, blk')
      invariant start == if f.pos >= pos' then f.pos - pos' else 0
      invariant doc.layouts == Painted(p, L0, blk')
      invariant formats' == Prefix(p, blk') + PiecesUpTo(p, k, blk')
      invariant EndsBy(p, k, blk')
      decreases p.last - blk'
    {
      blk', pos', formats' := CutAtSeparator(doc, p, L0, k, blk', start, formats');
      start := 0;
    }
  }

  /**
   * Cuts range k, which starts in block blk, into pieces: stores every block
   * the range runs past and returns the block where the range ends, with the
   * formats collected for it so far.
   */
  method CutRange(doc: TextDocument, p: Pass, ghost L0: seq<seq<FormatRange>>, k: nat, blk: nat, pos: nat, formats: seq<FormatRange>)
    returns (blk': nat, pos': nat, formats': seq<FormatRange>)
    requires ValidPass(p) && |L0| == |p.lens| && k < |p.ranges|
    requires p.first <= blk <= p.last && pos == BlockPos(p.lens, blk)
    requires pos <= p.ranges[k].pos < BlockEnd(p.lens, blk)
    requires doc.layouts == Painted(p, L0, blk)
    requires formats == Prefix(p, blk) + PiecesUpTo(p, k, blk)
    requires EndsBy(p, k, blk)
    modifies doc`layouts
    ensures blk <= blk' <= p.last && pos' == BlockPos(p.lens, blk')
    ensures doc.layouts == Painted(p, L0, blk')
    ensures formats' == Prefix(p, blk') + PiecesUpTo(p, k + 1, blk')
    ensures EndsBy(p, k + 1, blk') && blk' == EndBlock(p, k)
    ensures k + 1 < |p.ranges| ==> pos' <= p.ranges[k + 1].pos
  {
    var f := p.ranges[k];
    var start;
    blk', pos', formats', start := CutToLastBlock(doc, p, L0, k, blk, pos, formats);
    EndBlockIs(p, k, blk');
    AddLastPiece(p, blk', k, formats', start);
    formats' := formats' + [FormatRange(start, ClipEnd(p, f) - pos' - start, f.format)];
  }

  /**
   * Paints range k: leaves the blocks before the one it starts in, then
   * cuts it into pieces, returning k + 1 as the next range to paint.
   */
  method PaintRange(doc: TextDocument, p: Pass, ghost L0: seq<seq<FormatRange>>, k: nat, blk: nat, pos: nat, formats: seq<FormatRange>)
    returns (k': nat, blk': nat, pos': nat, formats': seq<FormatRange>)
    requires ValidPass(p) && |L0| == |p.lens| && k < |p.ranges|
    requires p.first <= blk <= p.last && pos == BlockPos(p.lens, blk) && pos <= p.ranges[k].pos
    requires doc.layouts == Painted(p, L0, blk)
    requires formats == Prefix(p, blk) + PiecesUpTo(p, k, blk)
    requires EndsBy(p, k, blk)
    modifies doc`layouts
    ensures k' == k + 1 && blk <= blk' <= p.last && pos' == BlockPos(p.lens, blk')
    ensures blk' == EndBlock(p, k)
    ensures doc.layouts == Painted(p, L0, blk')
    ensures formats' == Prefix(p, blk') + PiecesUpTo(p, k', blk')
    ensures EndsBy(p, k', blk')
    ensures k' < |p.ranges| ==> pos' <= p.ranges[k'].pos
  {
    blk', pos', formats' := SkipBlocks(doc, p, L0, k, blk, pos, formats);
    blk', pos', formats' := CutRange(doc, p, L0, k, blk', pos', formats');
    k' := k + 1;
  }

  /**
   * After the last range: stores the formats collected for block blk and
   * clears every later block of the span.
   */
  method FinishPass(doc: TextDocument, p: Pass, ghost L0: seq<seq<FormatRange>>, blk: nat, formats: seq<FormatRange>)
    requires ValidPass(p) && |L0| == |p.lens| && p.first <= blk <= p.last
    requires doc.layouts == Painted(p, L0, blk)
    requires formats == Prefix(p, blk) + PiecesUpTo(p, |p.ranges|, blk)
    requires EndsBy(p, |p.ranges|, blk)
    modifies doc`layouts
    ensures doc.layouts == Painted(p, L0, p.last + 1)
  {
    StoreBlock(p, L0, doc.layouts, blk, |p.ranges|, formats);
    doc.layouts := doc.layouts[blk := formats];
    var b := blk;
    while b < p.last
      invariant blk <= b <= p.last
      invariant doc.layouts == Painted(p, L0, b + 1)
      invariant EndsBy(p, |p.ranges|, b)
    {
      ClearNext(p, L0, doc.layouts, b);
      b := b + 1;
      doc.layouts := doc.layouts[b := []];
    }
  }

  /**
   * After range k, which left painting at block blk: when interruptible and
   * blk is past num, moves num to 1000 blocks past blk and quits if the
   * user typed. Quitting happens exactly at the first check the schedule
   * from range k on has, and otherwise the schedule goes on from range k + 1.
   */
  method CheckTyped(p: Pass, k: nat, blk: nat, num: nat, interruptible: bool, typed: nat -> bool) returns (num': nat, quit: bool)
    requires ValidPass(p) && k < |p.ranges| && blk == EndBlock(p, k)
    ensures num' >= num
    ensures quit ==> interruptible && typed(blk) && num < blk && FirstTyped(Checks(p, k, num), typed) == Some(blk)
    ensures interruptible && !quit ==> FirstTyped(Checks(p, k, num), typed) == FirstTyped(Checks(p, k + 1, num'), typed)
  {
    CheckStep(p, k, num, typed);
    num', quit := num, false;
    if interruptible && blk > num {
      num' := blk + 1000;
      quit := typed(blk);
    }
  }

  /**
   * Paints the pass onto doc's layouts, block by block. When interruptible,
   * every so many blocks (first after 100 blocks past the first, then after
   * each further 1000) the typed oracle is asked whether the user typed; if
   * so the method stops and reports the block where painting stopped.
   */
  method PaintRanges(doc: TextDocument, p: Pass, interruptible: bool, typed: nat -> bool) returns (stop: Option<nat>)
    requires ValidPass(p) && |doc.layouts| == |p.lens|
    modifies doc`layouts
    ensures stop == StopBlock(p, interruptible, typed)
    ensures stop.None? ==> doc.layouts == Painted(p, old(doc.layouts), p.last + 1)
    ensures stop.Some? ==>
      && interruptible && typed(stop.value)
      && p.first + 100 < stop.value <= p.last
      && doc.layouts == Painted(p, old(doc.layouts), stop.value)
  {
    ghost var L0 := doc.layouts;
    var blk := p.first;
    var pos := BlockPos(p.lens, blk);
    var formats := p.head;
    var num := p.first + 100;
    var k := 0;
    while k < |p.ranges|
      invariant 0 <= k <= |p.ranges| && p.first <= blk <= p.last
      invariant pos == BlockPos(p.lens, blk)
      invariant num >= p.first + 100
      invariant doc.layouts == Painted(p, L0, blk)
      invariant formats == Prefix(p, blk) + PiecesUpTo(p, k, blk)
      invariant EndsBy(p, k, blk)
      invariant k < |p.ranges| ==> pos <= p.ranges[k].pos
      invariant interruptible ==> StopBlock(p, interruptible, typed) == FirstTyped(Checks(p, k, num), typed)
    {
      var done := k;
      k, blk, pos, formats := PaintRange(doc, p, L0, k, blk, pos, formats);
      var quit;
      num, quit := CheckTyped(p, done, blk, num, interruptible, typed);
      if quit {
        return Some(blk);
      }
    }
    FinishPass(doc, p, L0, blk, formats);
    return None;
  }

  /** Every block's layout cleared: the loop both highlighters' clear() run over the blocks. */
  method ClearAll(doc: TextDocument)
    modifies doc`layouts
    ensures |doc.layouts| == |old(doc.layouts)|
    ensures forall b :: 0 <= b < |doc.layouts| ==> doc.layouts[b] == []
  {
    var b := 0;
    while b < |doc.layouts|
      invariant b <= |doc.layouts| == |old(doc.layouts)|
      invariant forall c :: 0 <= c < b ==> doc.layouts[c] == []
    {
      doc.layouts := doc.layouts[b := []];
      b := b + 1;
    }
  }
}

/**
 * The parceqt SyntaxHighlighter: draws the format ranges a Formatter yields
 * for a tree onto the block layouts of the document, widening the requested
 * span to whole blocks, and remembers the span of a run the user interrupted
 * by typing so that the next run covers it too.
 *
 * The Formatter is known by its identity only; its format_ranges for the
 * tree at hand is the oracle formatRanges(start, end). Whether the user typed
 * while events were processed is the oracle typed(block number).
 */
module ParceHighlighter {
  import opened Wrappers
  import opened QtFormat
  import opened QtText
  import opened Painting
  import opened SplitFormats

  /** The remembered span of an interrupted run: the selection of the highlighter's QTextCursor. */
  datatype Span = Span(start: nat, end: nat)

  /** What format_ranges promises for any span: ranges inside it, ordered and not overlapping. */
  ghost predicate RangesOracle(formatRanges: (nat, nat) -> seq<TextRange>)
  {
    forall s: nat, e: nat :: RangesOk(formatRanges(s, e), s, e)
  }

  /**
   * The span a run draws: the requested one, joined with the remembered
   * span of an interrupted run when the run is interruptible.
   */
  function RunSpan(start: nat, end: nat, interruptible: bool, cursor: Option<Span>): (r: Span)
    ensures r.start <= start && r.end >= end
    ensures interruptible && cursor.Some? ==> r.start <= cursor.value.start && r.end >= cursor.value.end
    ensures r.start == start || (interruptible && cursor.Some? && r.start == cursor.value.start)
    ensures r.end == end || (interruptible && cursor.Some? && r.end == cursor.value.end)
  {
    if interruptible && cursor.Some? then Span(Min(start, cursor.value.start), Max(end, cursor.value.end))
    else Span(start, end)
  }

  /** The last block of a run: the block holding end, or the last block when end lies past the text. */
  function LastBlock(lens: seq<nat>, end: nat): (b: nat)
    requires ValidLengths(lens)
    ensures b < |lens|
    ensures end < Total(lens) ==> BlockPos(lens, b) <= end < BlockEnd(lens, b)
    ensures end >= Total(lens) ==> b == |lens| - 1
  {
    match FindBlock(lens, end)
    case Some(b) => b
    case None => |lens| - 1
  }

  /** The block holding start comes no later than the last block, which ends inside the text. */
  lemma SpanBlocks(lens: seq<nat>, start: nat, end: nat)
    requires ValidLengths(lens) && start <= end && start < Total(lens)
    ensures BlockAt(lens, start) <= LastBlock(lens, end)
    ensures BlockEnd(lens, LastBlock(lens, end)) <= Total(lens)
  {
    var last := LastBlock(lens, end);
    if end < Total(lens) {
      BlockAtBefore(lens, start, last);
    }
    BlockEndBefore(lens, last, |lens|);
  }

  /**
   * The pass a run makes for the span [start, end]: from the block holding
   * start to the last position of the last block, keeping the formats of
   * the first block that lie before start.
   */
  function PassFor(lens: seq<nat>, layouts: seq<seq<FormatRange>>, start: nat, end: nat, formatRanges: (nat, nat) -> seq<TextRange>): (p: Pass)
    requires ValidLengths(lens) && |layouts| == |lens| && start <= end && start < Total(lens)
    ensures p.lens == lens && p.first == BlockAt(lens, start) <= p.last < |lens|
    ensures p.last == LastBlock(lens, end) && p.end == BlockEnd(lens, p.last) - 1
    ensures p.head == SplitHead(layouts[p.first], start - BlockPos(lens, p.first))
    ensures p.ranges == formatRanges(start, p.end)
    ensures RangesOracle(formatRanges) ==> ValidPass(p)
  {
    var first := BlockAt(lens, start);
    var last := LastBlock(lens, end);
    SpanBlocks(lens, start, end);
    var e := BlockEnd(lens, last) - 1;
    Pass(lens, first, last, e, SplitHead(layouts[first], start - BlockPos(lens, first)), formatRanges(start, e))
  }

  /**
   * The end of a preview: one before the position of the block holding
   * treeEnd, -1 when treeEnd lies past the text.
   */
  function PreviewEnd(lens: seq<nat>, treeEnd: nat): (e: int)
    requires ValidLengths(lens)
    ensures e < treeEnd && e < Total(lens)
    ensures treeEnd < Total(lens) ==> e + 1 == BlockPos(lens, BlockAt(lens, treeEnd))
    ensures treeEnd >= Total(lens) ==> e == -1
  {
    match FindBlock(lens, treeEnd)
    case Some(b) =>
      BlockAtUnique(lens, treeEnd, b);
      BlockEndBefore(lens, b, |lens|);
      BlockPos(lens, b) - 1
    case None => -1
  }

  /**
   * What one run of draw_highlighting with a Formatter does to the layouts
   * (from L0 to L1) and to the remembered span (from c0 to c1): it paints
   * the pass for its span, all of it or, when interrupted, up to the block
   * stop where the user typed, remembering the span from there. It stops
   * exactly at the first scheduled check where the user typed.
   */
  ghost predicate Drew(lens: seq<nat>, L0: seq<seq<FormatRange>>, c0: Option<Span>, start: nat, end: nat, interruptible: bool,
                       formatRanges: (nat, nat) -> seq<TextRange>, typed: nat -> bool,
                       L1: seq<seq<FormatRange>>, c1: Option<Span>, stop: Option<nat>)
    requires ValidLengths(lens) && |L0| == |lens| && start <= end && start < Total(lens)
    requires RangesOracle(formatRanges)
  {
    var span := RunSpan(start, end, interruptible, c0);
    var p := PassFor(lens, L0, span.start, span.end, formatRanges);
    && stop == StopBlock(p, interruptible, typed)
    && match stop
    case None =>
      && L1 == Painted(p, L0, p.last + 1)
      && c1 == if interruptible then None else c0
    case Some(b) =>
      && interruptible && typed(b) && p.first + 100 < b <= p.last
      && L1 == Painted(p, L0, b)
      && c1 == Some(Span(BlockPos(p.lens, b), p.end))
  }

  /**
   * A run keeps the formats of its first block that lie wholly before its
   * start: they open what the run stores in that block, unchanged.
   */
  lemma KeepsFormatsBeforeStart(lens: seq<nat>, layouts: seq<seq<FormatRange>>, start: nat, end: nat, formatRanges: (nat, nat) -> seq<TextRange>)
    requires ValidLengths(lens) && |layouts| == |lens| && start <= end && start < Total(lens)
    ensures var p := PassFor(lens, layouts, start, end, formatRanges);
      var k := CutIndex(layouts[p.first], start - BlockPos(lens, p.first));
      && k <= |Expected(p, p.first)|
      && Expected(p, p.first)[..k] == layouts[p.first][..k]
      && forall i :: 0 <= i < k ==> BlockPos(lens, p.first) + RangeEnd(layouts[p.first][i]) <= start
  {
    var p := PassFor(lens, layouts, start, end, formatRanges);
    var q := start - BlockPos(lens, p.first);
    var k := CutIndex(layouts[p.first], q);
    HeadKeepsBefore(layouts[p.first], q);
    assert Expected(p, p.first) == p.head + PiecesUpTo(p, |p.ranges|, p.first);
    assert Expected(p, p.first)[..k] == p.head[..k];
  }

  class SyntaxHighlighter {
    const doc: TextDocument
    /** The identity of the Formatter, None when no Formatter is set. */
    var formatter: Option<nat>
    /** The span still to be drawn after an interrupted run. */
    var cursor: Option<Span>

    /** The remembered span lies inside the document. */
    predicate Valid()
      reads this, doc
    {
      && doc.Valid()
      && (cursor.Some? ==> cursor.value.start <= cursor.value.end < Total(doc.Lengths()))
    }

    constructor (doc: TextDocument)
      requires doc.Valid()
      ensures Valid() && this.doc == doc && formatter == None && cursor == None
    {
      this.doc := doc;
      formatter := None;
      cursor := None;
    }

    /**
     * Finds the blocks of the span [start, end], widens it to whole blocks
     * and keeps the formats of the first block that lie before start.
     */
    method MakePass(start: nat, end: nat, formatRanges: (nat, nat) -> seq<TextRange>) returns (p: Pass)
      requires Valid() && start <= end && start < Total(doc.Lengths())
      ensures p == PassFor(doc.Lengths(), doc.layouts, start, end, formatRanges)
    {
      var lens := doc.Lengths();
      var first := FindBlock(lens, start).value;
      BlockAtUnique(lens, start, first);
      var last := LastBlock(lens, end);
      var e := BlockEnd(lens, last) - 1;
      var head, _ := Split(doc.layouts[first], start - BlockPos(lens, first));
      p := Pass(lens, first, last, e, head, formatRanges(start, e));
    }

    /**
     * Draws the highlighting for [start, end] with the current Formatter.
     * Without a Formatter nothing changes. An interruptible run widens the
     * span by the remembered one; when the user typed it returns the block
     * where it stopped, remembering the span from that block's start, and
     * a run that finishes forgets the remembered span.
     */
    method DrawHighlighting(formatRanges: (nat, nat) -> seq<TextRange>, start: nat, end: nat, interruptible: bool, typed: nat -> bool)
      returns (stop: Option<nat>)
      requires Valid() && RangesOracle(formatRanges)
      requires start <= end && start < Total(doc.Lengths())
      modifies doc`layouts, this`cursor
      ensures Valid()
      ensures old(formatter).None? ==> stop == None && doc.layouts == old(doc.layouts) && cursor == old(cursor)
      ensures old(formatter).Some? ==>
        Drew(old(doc.Lengths()), old(doc.layouts), old(cursor), start, end, interruptible, formatRanges, typed, doc.layouts, cursor, stop)
    {
      if formatter.None? {
        return None;
      }
      var span := RunSpan(start, end, interruptible, cursor);
      var p := MakePass(span.start, span.end, formatRanges);
      var lens, last, e := p.lens, p.last, p.end;
      stop := PaintRanges(doc, p, interruptible, typed);
      match stop {
        case None =>
          if interruptible {
            cursor := None;
          }
        case Some(b) =>
          BlockPosMono(lens, b, last);
          cursor := Some(Span(BlockPos(lens, b), e));
      }
    }

    /** Clears the highlighting of every block. */
    method Clear()
      requires Valid()
      modifies doc`layouts
      ensures Valid()
      ensures forall b :: 0 <= b < |doc.layouts| ==> doc.layouts[b] == []
    {
      ClearAll(doc);
    }

    /**
     * Draws the whole document when a Formatter is set and the tree is
     * there (hasRoot), or clears the highlighting when no Formatter is set.
     */
    method Rehighlight(hasRoot: bool, formatRanges: (nat, nat) -> seq<TextRange>, typed: nat -> bool) returns (stop: Option<nat>)
      requires Valid() && RangesOracle(formatRanges)
      modifies doc`layouts, this`cursor
      ensures Valid()
      ensures formatter.None? ==> stop == None && cursor == old(cursor) && forall b :: 0 <= b < |doc.layouts| ==> doc.layouts[b] == []
      ensures formatter.Some? && !hasRoot ==> stop == None && doc.layouts == old(doc.layouts) && cursor == old(cursor)
      ensures formatter.Some? && hasRoot ==>
        Drew(old(doc.Lengths()), old(doc.layouts), old(cursor), 0, old(doc.CharacterCount()) - 1, true, formatRanges, typed, doc.layouts, cursor, stop)
    {
      ghost var lens, L0, c0, n := doc.Lengths(), doc.layouts, cursor, doc.CharacterCount();
      stop := None;
      if formatter.Some? {
        if hasRoot {
          stop := DrawAll(formatRanges, typed);
          assert Drew(lens, L0, c0, 0, n - 1, true, formatRanges, typed, doc.layouts, cursor, stop);
        }
      } else {
        Clear();
      }
    }

    /** Draws the whole document, interruptibly, with the Formatter set. */
    method DrawAll(formatRanges: (nat, nat) -> seq<TextRange>, typed: nat -> bool) returns (stop: Option<nat>)
      requires Valid() && RangesOracle(formatRanges) && formatter.Some?
      modifies doc`layouts, this`cursor
      ensures Valid()
      ensures Drew(old(doc.Lengths()), old(doc.layouts), old(cursor), 0, old(doc.CharacterCount()) - 1, true, formatRanges, typed, doc.layouts, cursor, stop)
    {
      ghost var lens, L0, c0 := doc.Lengths(), doc.layouts, cursor;
      var end := doc.CharacterCount() - 1;
      stop := DrawHighlighting(formatRanges, 0, end, true, typed);
      assert Drew(lens, L0, c0, 0, end, true, formatRanges, typed, doc.layouts, cursor, stop);
    }

    /** Sets the Formatter; only a different one than the current one triggers a rehighlight. */
    method SetFormatter(f: Option<nat>, hasRoot: bool, formatRanges: (nat, nat) -> seq<TextRange>, typed: nat -> bool) returns (stop: Option<nat>)
      requires Valid() && RangesOracle(formatRanges)
      modifies this`formatter, doc`layouts, this`cursor
      ensures Valid() && formatter == f
      ensures f == old(formatter) ==> stop == None && doc.layouts == old(doc.layouts) && cursor == old(cursor)
      ensures f != old(formatter) && f.Some? && !hasRoot ==> stop == None && doc.layouts == old(doc.layouts) && cursor == old(cursor)
      ensures f != old(formatter) && f.None? ==> stop == None && cursor == old(cursor) && forall b :: 0 <= b < |doc.layouts| ==> doc.layouts[b] == []
      ensures f != old(formatter) && f.Some? && hasRoot ==>
        Drew(old(doc.Lengths()), old(doc.layouts), old(cursor), 0, old(doc.CharacterCount()) - 1, true, formatRanges, typed, doc.layouts, cursor, stop)
    {
      stop := None;
      if f != formatter {
        formatter := f;
        stop := Rehighlight(hasRoot, formatRanges, typed);
      }
    }

    /**
     * A preview of the tree from start on, up to treeEnd: drawn, not
     * interruptibly, up to just before the block holding treeEnd (the
     * position of an invalid block being 0), when that lies after start.
     */
    method SlotPreview(start: nat, treeEnd: nat, formatRanges: (nat, nat) -> seq<TextRange>)
      requires Valid() && RangesOracle(formatRanges)
      modifies doc`layouts, this`cursor
      ensures Valid() && cursor == old(cursor)
      ensures var end := PreviewEnd(doc.Lengths(), treeEnd);
        if formatter.Some? && start < end then
          Drew(old(doc.Lengths()), old(doc.layouts), old(cursor), start, end as nat, false, formatRanges, _ => false, doc.layouts, cursor, None)
        else doc.layouts == old(doc.layouts)
    {
      if formatter.Some? {
        var end := PreviewEnd(doc.Lengths(), treeEnd);
        if start < end {
          var _ := DrawHighlighting(formatRanges, start, end as nat, false, _ => false);
        }
      }
    }

    /** The tree was updated for [start, end]: drawn interruptibly when a Formatter is set. */
    method SlotUpdated(start: nat, end: nat, formatRanges: (nat, nat) -> seq<TextRange>, typed: nat -> bool) returns (stop: Option<nat>)
      requires Valid() && RangesOracle(formatRanges)
      requires start <= end && start < Total(doc.Lengths())
      modifies doc`layouts, this`cursor
      ensures Valid()
      ensures formatter.None? ==> stop == None && doc.layouts == old(doc.layouts) && cursor == old(cursor)
      ensures formatter.Some? ==>
        Drew(old(doc.Lengths()), old(doc.layouts), old(cursor), start, end, true, formatRanges, typed, doc.layouts, cursor, stop)
    {
      ghost var lens, L0, c0 := doc.Lengths(), doc.layouts, cursor;
      stop := DrawHighlighting(formatRanges, start, end, true, typed);
      assert formatter.Some? ==> Drew(lens, L0, c0, start, end, true, formatRanges, typed, doc.layouts, cursor, stop);
    }
  }
}

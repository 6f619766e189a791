/**
 * The parceqt TreeBuilder: reports every change the parce tree builder makes
 * to the tree as Qt signals, so that an item model can follow it. The
 * signals emitted are kept, in order, in the builder's log.
 */
module TreeBuilder {
  import opened Wrappers
  import opened TreeModel

  /** A Python slice with step 1: start and stop, each possibly None. */
  datatype Slice = Slice(start: Option<int>, stop: Option<int>)

  /** A context of the tree, whose child list the builder changes in place. */
  class Context {
    var children: seq<Node>

    constructor (children: seq<Node>)
      ensures this.children == children
    {
      this.children := children;
    }
  }

  /** The signals of the builder. */
  datatype Signal =
    | Started
    | Updated(start: int, end: int)
    | Preview(start: int, tree: Node)
    | BeginRemoveRows(context: Context, first: int, last: int)
    | EndRemoveRows
    | BeginInsertRows(context: Context, first: int, last: int)
    | EndInsertRows
    | ChangePosition(context: Context, first: int, last: int)
    | ChangeRootLexicon

  /** One bound of slice.indices(len) for step 1: None gives the default, a negative one counts from the end, and the result is clamped to [0, len]. */
  function Bound(i: Option<int>, len: nat, default: nat): (r: nat)
    requires default <= len
    ensures r <= len
    ensures i.Some? && 0 <= i.value <= len ==> r == i.value
    ensures i.Some? && -(len as int) <= i.value < 0 ==> r == i.value + len
    ensures i.Some? && i.value < -(len as int) ==> r == 0
    ensures i.Some? && i.value > len ==> r == len
  {
    match i
    case None => default
    case Some(v) =>
      if v < 0 then (if v + len < 0 then 0 else v + len)
      else if v > len then len
      else v
  }

  /** slice.indices(len) for step 1: the start and stop that the slice selects in a list of length len. */
  function Indices(s: Slice, len: nat): (nat, nat)
  {
    (Bound(s.start, len, 0), Bound(s.stop, len, len))
  }

  /** del xs[s]: the items from start up to stop removed, nothing when stop is not after start. */
  function DeleteSlice<T>(xs: seq<T>, s: Slice): (r: seq<T>)
    ensures var a, b := Indices(s, |xs|).0, Indices(s, |xs|).1;
      && |r| == |xs| - (Max(a, b) - a)
      && (forall i :: 0 <= i < a ==> r[i] == xs[i])
      && (forall i :: a <= i < |r| ==> r[i] == xs[i + (Max(a, b) - a)])
  {
    var (a, b) := Indices(s, |xs|);
    xs[..a] + xs[Max(a, b)..]
  }

  /** xs[i:i] = ys: ys inserted before position i, which Python clamps to [0, len]. */
  function InsertAt<T>(xs: seq<T>, i: int, ys: seq<T>): (r: seq<T>)
    ensures |r| == |xs| + |ys|
    ensures var k := Bound(Some(i), |xs|, 0);
      && (forall j :: 0 <= j < k ==> r[j] == xs[j])
      && (forall j :: 0 <= j < |ys| ==> r[k + j] == ys[j])
      && (forall j :: k <= j < |xs| ==> r[j + |ys|] == xs[j])
  {
    var k := Bound(Some(i), |xs|, 0);
    xs[..k] + ys + xs[k..]
  }

  /** The signals that report removing rows [a, b) of a context with len rows: none when no row goes. */
  function RemoveSignals(context: Context, a: nat, b: nat, len: nat): seq<Signal>
  {
    if a < len && a <= b - 1 then [BeginRemoveRows(context, a, b - 1), EndRemoveRows] else []
  }

  /** The signals that report inserting nodes at row a: none for no nodes. */
  function InsertSignals(context: Context, a: int, nodes: seq<Node>): seq<Signal>
  {
    if |nodes| > 0 then [BeginInsertRows(context, a, a + |nodes| - 1), EndInsertRows] else []
  }

  /** A row signal with the child list its context had when the signal was emitted. */
  datatype Seen = Seen(signal: Signal, children: seq<Node>)

  /**
   * What the row signals of a removal see: begin_remove_rows the list
   * before the deletion, end_remove_rows the list after it.
   */
  function RemoveTrace(context: Context, a: nat, b: nat, before: seq<Node>, after: seq<Node>): seq<Seen>
  {
    if a < |before| && a <= b - 1 then [Seen(BeginRemoveRows(context, a, b - 1), before), Seen(EndRemoveRows, after)] else []
  }

  /**
   * What the row signals of an insertion see: begin_insert_rows the list
   * before the splice, end_insert_rows the list after it.
   */
  function InsertTrace(context: Context, a: int, nodes: seq<Node>, before: seq<Node>, after: seq<Node>): seq<Seen>
  {
    if |nodes| > 0 then [Seen(BeginInsertRows(context, a, a + |nodes| - 1), before), Seen(EndInsertRows, after)] else []
  }

  class TreeBuilder {
    /** The signals emitted so far, in order. */
    var log: seq<Signal>
    /** The row signals emitted so far, each with the child list its context had at that moment. */
    ghost var trace: seq<Seen>
    var rootLexicon: Option<string>
    /** The region the last build changed, as parce's tree builder keeps it. */
    var start: int
    var end: int

    constructor ()
      ensures log == [] && trace == [] && rootLexicon == None
    {
      log, trace := [], [];
      rootLexicon := None;
      start, end := 0, 0;
    }

    /** A preview of a tree not yet finished is reported before parce's own peek. */
    method Peek(start: int, tree: Node)
      modifies this`log
      ensures log == old(log) + [Preview(start, tree)]
    {
      log := log + [Preview(start, tree)];
    }

    /**
     * Replaces the children selected by slice s by nodes: a non-empty
     * removal is reported around the deletion, and the insertion of
     * non-empty nodes around the splice at the slice's start.
     */
    method ReplaceNodes(context: Context, s: Slice, nodes: seq<Node>)
      modifies this`log, this`trace, context`children
      ensures var r := Indices(s, |old(context.children)|);
        && context.children == old(context.children)[..r.0] + nodes + old(context.children)[Max(r.0, r.1)..]
        && log == old(log) + RemoveSignals(context, r.0, r.1, |old(context.children)|) + InsertSignals(context, r.0, nodes)
      ensures var r := Indices(s, |old(context.children)|);
        var removed := DeleteSlice(old(context.children), s);
        trace == old(trace)
          + RemoveTrace(context, r.0, r.1, old(context.children), removed)
          + InsertTrace(context, r.0, nodes, removed, context.children)
    {
      ghost var children0, log0, trace0 := context.children, log, trace;
      var (a, b) := Indices(s, |context.children|);
      var last := b - 1;
      if a < |context.children| && a <= last {
        RemoveRows(context, s, a, last);
      } else {
        assert children0[..a] + children0[Max(a, b)..] == children0;
      }
      ghost var removed, log1, trace1 := context.children, log, trace;
      assert removed == DeleteSlice(children0, s) == children0[..a] + children0[Max(a, b)..];
      assert log1 == log0 + RemoveSignals(context, a, b, |children0|);
      assert trace1 == trace0 + RemoveTrace(context, a, b, children0, removed);
      if |nodes| > 0 {
        InsertRows(context, a, nodes);
      }
      assert context.children == InsertAt(removed, a, nodes);
      assert log == log1 + InsertSignals(context, a, nodes);
      assert trace == trace1 + InsertTrace(context, a, nodes, removed, context.children);
    }

    /** begin_remove_rows, `del context[slice_]`, end_remove_rows: the removal reported around the deletion. */
    method RemoveRows(context: Context, s: Slice, first: int, last: int)
      modifies this`log, this`trace, context`children
      ensures context.children == DeleteSlice(old(context.children), s)
      ensures log == old(log) + [BeginRemoveRows(context, first, last), EndRemoveRows]
      ensures trace == old(trace) + [Seen(BeginRemoveRows(context, first, last), old(context.children)), Seen(EndRemoveRows, context.children)]
    {
      log := log + [BeginRemoveRows(context, first, last)];
      trace := trace + [Seen(BeginRemoveRows(context, first, last), context.children)];
      context.children := DeleteSlice(context.children, s);
      log := log + [EndRemoveRows];
      trace := trace + [Seen(EndRemoveRows, context.children)];
    }

    /** begin_insert_rows, `context[start:start] = nodes`, end_insert_rows: the insertion reported around the splice. */
    method InsertRows(context: Context, start: int, nodes: seq<Node>)
      modifies this`log, this`trace, context`children
      ensures context.children == InsertAt(old(context.children), start, nodes)
      ensures log == old(log) + [BeginInsertRows(context, start, start + |nodes| - 1), EndInsertRows]
      ensures trace == old(trace) + [Seen(BeginInsertRows(context, start, start + |nodes| - 1), old(context.children)), Seen(EndInsertRows, context.children)]
    {
      log := log + [BeginInsertRows(context, start, start + |nodes| - 1)];
      trace := trace + [Seen(BeginInsertRows(context, start, start + |nodes| - 1), context.children)];
      context.children := InsertAt(context.children, start, nodes);
      log := log + [EndInsertRows];
      trace := trace + [Seen(EndInsertRows, context.children)];
    }

    /**
     * After parce has moved the positions of the children from index on
     * (not part of this model), the change is reported for rows index up to
     * the last one, when there are any.
     */
    method ReplacePos(context: Context, index: int, offset: int)
      modifies this`log
      ensures log == old(log) + if index <= |context.children| - 1 then [ChangePosition(context, index, |context.children| - 1)] else []
    {
      var first, last := index, |context.children| - 1;
      if first <= last {
        log := log + [ChangePosition(context, first, last)];
      }
    }

    /** The root lexicon is replaced, then the change reported. */
    method ReplaceRootLexicon(lexicon: Option<string>)
      modifies this`log, this`rootLexicon
      ensures rootLexicon == lexicon && log == old(log) + [ChangeRootLexicon]
    {
      rootLexicon := lexicon;
      log := log + [ChangeRootLexicon];
    }

    /** A build starts: reported before parce's own bookkeeping. */
    method ProcessStarted()
      modifies this`log
      ensures log == old(log) + [Started]
    {
      log := log + [Started];
    }

    /** A build finished: the changed region is reported before parce's own bookkeeping. */
    method ProcessFinished()
      modifies this`log
      ensures log == old(log) + [Updated(start, end)]
    {
      log := log + [Updated(start, end)];
    }
  }

  /**
   * A reported removal brackets the deletion: begin_remove_rows names rows
   * that the list it sees has, and end_remove_rows sees the list without
   * exactly those rows.
   */
  lemma RemoveBracketed(context: Context, children: seq<Node>, s: Slice)
    requires Indices(s, |children|).0 < Indices(s, |children|).1
    ensures var r := Indices(s, |children|);
      var t := RemoveTrace(context, r.0, r.1, children, DeleteSlice(children, s));
      && |t| == 2 && t[0].signal == BeginRemoveRows(context, r.0, r.1 - 1) && t[1].signal == EndRemoveRows
      && r.1 - 1 < |t[0].children|
      && |t[1].children| == |t[0].children| - (r.1 - r.0)
      && (forall i :: 0 <= i < r.0 ==> t[1].children[i] == t[0].children[i])
      && (forall i :: r.0 <= i < |t[1].children| ==> t[1].children[i] == t[0].children[i + (r.1 - r.0)])
  {
  }

  /**
   * A reported insertion brackets the splice: begin_insert_rows names rows
   * that, in the list end_insert_rows sees, hold exactly the nodes, the
   * rows before them unchanged.
   */
  lemma InsertBracketed(context: Context, before: seq<Node>, a: nat, nodes: seq<Node>)
    requires a <= |before| && |nodes| > 0
    ensures var t := InsertTrace(context, a, nodes, before, InsertAt(before, a, nodes));
      && |t| == 2 && t[0].signal == BeginInsertRows(context, a, a + |nodes| - 1) && t[1].signal == EndInsertRows
      && t[0].children == before
      && a + |nodes| - 1 < |t[1].children|
      && (forall i :: 0 <= i < |nodes| ==> t[1].children[a + i] == nodes[i])
      && (forall i :: 0 <= i < a ==> t[1].children[i] == before[i])
  {
  }

  /**
   * The child list replace_nodes leaves: its length is the old one less the
   * rows removed plus the nodes inserted, and the removal is reported
   * exactly when rows are removed.
   */
  lemma ReplacedLength(context: Context, children: seq<Node>, s: Slice, nodes: seq<Node>)
    ensures var (a, b) := Indices(s, |children|);
      && |children[..a] + nodes + children[Max(a, b)..]| == |children| - (Max(a, b) - a) + |nodes|
      && (RemoveSignals(context, a, b, |children|) != [] <==> a < b)
  {
  }
}

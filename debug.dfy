/**
 * The debugging helpers of parceqt: the hand-written slice normaliser
 * get_slice, the tree builder that reports changes using it, and
 * lexicon_names, which shortens the names of a list of lexicons.
 */
module Debug {
  import opened Wrappers
  import opened Strings
  import opened TreeModel
  import opened TreeBuilder

  /**
   * get_slice: the start and end of a slice of a list of total items. A
   * start that is None or lies before -total becomes 0 and another
   * negative one counts from the end; a start at or after 0 is kept, also
   * past total. An end that is None or lies past total becomes total, one
   * before -total becomes 0 and another negative one counts from the end.
   */
  function GetSlice(total: nat, s: Slice): (r: (int, int))
    ensures 0 <= r.0 && 0 <= r.1 <= total
    ensures s.start.Some? && s.start.value >= 0 ==> r.0 == s.start.value
  {
    var start :=
      if s.start.None? || s.start.value < -(total as int) then 0
      else if s.start.value < 0 then s.start.value + total
      else s.start.value;
    var end :=
      if s.stop.None? || s.stop.value > total then total
      else if s.stop.value < -(total as int) then 0
      else if s.stop.value < 0 then s.stop.value + total
      else s.stop.value;
    (start, end)
  }

  /**
   * get_slice agrees with Python's slice.indices except that it keeps a
   * start past the end of the list, where slice.indices gives the length.
   */
  lemma GetSliceVsIndices(total: nat, s: Slice)
    ensures GetSlice(total, s).1 == Indices(s, total).1
    ensures GetSlice(total, s).0 <= total ==> GetSlice(total, s).0 == Indices(s, total).0
    ensures GetSlice(total, s).0 > total ==> Indices(s, total).0 == total
  {
  }

  /** The index argument parceqt's replace_pos receives: a Python int, or a slice object. */
  datatype IndexArg = IntArg(i: int) | SliceArg(s: Slice)

  /** Python's `start <= end` with an int end: an int compares, a slice raises TypeError. */
  function LessEq(start: IndexArg, end: int): (r: Result<bool, string>)
    ensures r.Err? <==> start.SliceArg?
    ensures r.Err? ==> r.error == "TypeError"
    ensures start.IntArg? ==> r == Ok(start.i <= end)
  {
    match start
    case IntArg(i) => Ok(i <= end)
    case SliceArg(_) => Err("TypeError")
  }

  class DebugTreeBuilder {
    /** The signals emitted so far, in order. */
    var log: seq<Signal>
    /** The row signals emitted so far, each with the child list its context had at that moment. */
    ghost var trace: seq<Seen>

    constructor ()
      ensures log == [] && trace == []
    {
      log, trace := [], [];
    }

    /**
     * replace_nodes of the debugging tree builder, as written: the rows are
     * reported from get_slice, while the deletion and the splice follow
     * Python's own slice rules. A start past the end of the list is
     * reported as the first inserted row, but the nodes are appended.
     */
    method ReplaceNodes(context: Context, s: Slice, nodes: seq<Node>)
      modifies this`log, this`trace, context`children
      ensures var r := GetSlice(|old(context.children)|, s);
        var removed := if r.0 < |old(context.children)| && r.0 <= r.1 - 1 then DeleteSlice(old(context.children), s) else old(context.children);
        && context.children == InsertAt(removed, r.0, nodes)
        && log == old(log) + RemoveSignals(context, r.0, r.1, |old(context.children)|) + InsertSignals(context, r.0, nodes)
        && trace == old(trace)
          + RemoveTrace(context, r.0, r.1, old(context.children), removed)
          + InsertTrace(context, r.0, nodes, removed, context.children)
    {
      ghost var log0, trace0, children0 := log, trace, context.children;
      var (a, b) := GetSlice(|context.children|, s);
      var last := b - 1;
      if a < |context.children| && a <= last {
        RemoveRows(context, s, a, last);
      }
      ghost var log1, trace1, removed := log, trace, context.children;
      assert log1 == log0 + RemoveSignals(context, a, b, |children0|);
      assert trace1 == trace0 + RemoveTrace(context, a, b, children0, removed);
      if |nodes| > 0 {
        InsertRows(context, a, nodes);
      }
      assert context.children == InsertAt(removed, a, nodes);
      assert log == log1 + InsertSignals(context, a, nodes);
      assert trace == trace1 + InsertTrace(context, a, nodes, removed, context.children);
    }

    /**
     * replace_nodes with the inserted rows reported where the nodes land:
     * the start clamped to the list's length as Python's slice does. Its
     * child list, signals and what they see are those of the parceqt tree
     * builder.
     */
    method ReplaceNodesClamped(context: Context, s: Slice, nodes: seq<Node>)
      modifies this`log, this`trace, context`children
      ensures var r := Indices(s, |old(context.children)|);
        && context.children == old(context.children)[..r.0] + nodes + old(context.children)[Max(r.0, r.1)..]
        && log == old(log) + RemoveSignals(context, r.0, r.1, |old(context.children)|) + InsertSignals(context, r.0, nodes)
      ensures var r := Indices(s, |old(context.children)|);
        var removed := DeleteSlice(old(context.children), s);
        trace == old(trace)
          + RemoveTrace(context, r.0, r.1, old(context.children), removed)
          + InsertTrace(context, r.0, nodes, removed, context.children)
    {
      ghost var log0, trace0, children0 := log, trace, context.children;
      var (a0, b) := GetSlice(|context.children|, s);
      GetSliceVsIndices(|context.children|, s);
      var a := Min(a0, |context.children|);
      assert (a, b) == Indices(s, |children0|);
      var last := b - 1;
      if a < |context.children| && a <= last {
        RemoveRows(context, s, a, last);
      } else {
        assert children0[..a] + children0[Max(a, b)..] == children0;
      }
      ghost var log1, trace1, removed := log, trace, context.children;
      assert removed == DeleteSlice(children0, s) == children0[..a] + children0[Max(a, b)..];
      assert log1 == log0 + RemoveSignals(context, a, b, |children0|);
      assert trace1 == trace0 + RemoveTrace(context, a, b, children0, removed);
      if |nodes| > 0 {
        InsertRows(context, a, nodes);
      }
      assert context.children == InsertAt(removed, a, nodes);
      assert log == log1 + InsertSignals(context, a, nodes);
      assert trace == trace1 + InsertTrace(context, a, nodes, removed, context.children);
    }

    /** begin_remove_rows, `del context[slice_]`, end_remove_rows: the removal reported around the deletion. */
    method RemoveRows(context: Context, s: Slice, first: int, last: int)
      modifies this`log, this`trace, context`children
      ensures context.children == DeleteSlice(old(context.children), s)
      ensures log == old(log) + [BeginRemoveRows(context, first, last), EndRemoveRows]
      ensures trace == old(trace) + [Seen(BeginRemoveRows(context, first, last), old(context.children)), Seen(EndRemoveRows, context.children)]
    {
      log := log + [BeginRemoveRows(context, first, last)];
      trace := trace + [Seen(BeginRemoveRows(context, first, last), context.children)];
      context.children := DeleteSlice(context.children, s);
      log := log + [EndRemoveRows];
      trace := trace + [Seen(EndRemoveRows, context.children)];
    }

    /** begin_insert_rows, `context[start:start] = nodes`, end_insert_rows: the insertion reported around the splice. */
    method InsertRows(context: Context, start: int, nodes: seq<Node>)
      modifies this`log, this`trace, context`children
      ensures context.children == InsertAt(old(context.children), start, nodes)
      ensures log == old(log) + [BeginInsertRows(context, start, start + |nodes| - 1), EndInsertRows]
      ensures trace == old(trace) + [Seen(BeginInsertRows(context, start, start + |nodes| - 1), old(context.children)), Seen(EndInsertRows, context.children)]
    {
      log := log + [BeginInsertRows(context, start, start + |nodes| - 1)];
      trace := trace + [Seen(BeginInsertRows(context, start, start + |nodes| - 1), context.children)];
      context.children := InsertAt(context.children, start, nodes);
      log := log + [EndInsertRows];
      trace := trace + [Seen(EndInsertRows, context.children)];
    }

    /**
     * replace_pos of the debugging tree builder, as written: super() is
     * parceqt's replace_pos, which takes the slice as its index and compares
     * it with the last row number. Python raises TypeError there, before
     * any signal is emitted.
     */
    method ReplacePosAsWritten(context: Context, s: Slice, offset: int) returns (r: Result<(), string>)
      modifies this`log
      ensures r == Err("TypeError") && log == old(log)
    {
      var cmp := LessEq(SliceArg(s), |context.children| - 1);
      r := Err(cmp.error);
    }

    /**
     * replace_pos as evidently intended: after parce has moved the positions
     * of the sliced children (not part of this model), the change is
     * reported over the slice's rows when there are any.
     */
    method ReplacePos(context: Context, s: Slice, offset: int)
      modifies this`log
      ensures var (a, b) := GetSlice(|context.children|, s);
        log == old(log) + if a < |context.children| && a <= b - 1 then [ChangePosition(context, a, b - 1)] else []
    {
      var (a, b) := GetSlice(|context.children|, s);
      var last := b - 1;
      if a < |context.children| && a <= last {
        log := log + [ChangePosition(context, a, last)];
      }
    }
  }

  /**
   * The as-written replace_pos on one child and the slice [0:1]: the
   * comparison in parceqt's replace_pos raises, while the slice selects
   * row 0, whose position change ReplacePos reports.
   */
  lemma ReplacePosRaises()
    ensures LessEq(SliceArg(Slice(Some(0), Some(1))), 0) == Err("TypeError")
    ensures GetSlice(1, Slice(Some(0), Some(1))) == (0, 1)
  {
  }

  /**
   * The as-written replace_nodes on three children with the slice [5:] and
   * one node: it reports row 5 as inserted, but the node lands at row 3 and
   * the list has no row 5.
   */
  lemma InsertReportedPastEnd(context: Context, n0: Node, n1: Node, n2: Node, x: Node)
    ensures GetSlice(3, Slice(Some(5), None)) == (5, 3)
    ensures InsertSignals(context, 5, [x]) == [BeginInsertRows(context, 5, 5), EndInsertRows]
    ensures InsertAt([n0, n1, n2], 5, [x]) == [n0, n1, n2, x]
  {
  }

  /**
   * With the start clamped, the inserted rows reported are exactly the
   * rows the nodes occupy afterwards.
   */
  lemma ClampedInsertRows(children: seq<Node>, s: Slice, nodes: seq<Node>)
    ensures var (a, b) := Indices(s, |children|);
      var after := children[..a] + nodes + children[Max(a, b)..];
      && a + |nodes| <= |after|
      && forall i :: 0 <= i < |nodes| ==> after[a + i] == nodes[i]
  {
  }

  /** A lexicon's repr splits on '.' into exactly a language and a name. */
  predicate TwoParts(fullname: string)
  {
    |SplitOn(fullname, '.')| == 2
  }

  function Lang(fullname: string): string
    requires TwoParts(fullname)
  {
    SplitOn(fullname, '.')[0]
  }

  function ShortName(fullname: string): string
    requires TwoParts(fullname)
  {
    SplitOn(fullname, '.')[1]
  }

  /**
   * The names lexicon_names yields for the reprs, with curlang the
   * language of the lexicon before them, and whether it then fails on a
   * repr that does not split into a language and a name.
   */
  function NamesFrom(reprs: seq<string>, curlang: Option<string>): (r: (seq<string>, bool))
    ensures |r.0| <= |reprs|
    ensures !r.1 <==> |r.0| == |reprs|
  {
    if reprs == [] then ([], false)
    else if !TwoParts(reprs[0]) then ([], true)
    else
      var lang := Lang(reprs[0]);
      var rest := NamesFrom(reprs[1..], Some(lang));
      ([if Some(lang) == curlang then ShortName(reprs[0]) else reprs[0]] + rest.0, rest.1)
  }

  /** The language of the lexicon before the i-th one. */
  function PrevLang(reprs: seq<string>, curlang: Option<string>, i: nat): Option<string>
    requires i < |reprs| && (i > 0 ==> TwoParts(reprs[i - 1]))
  {
    if i == 0 then curlang else Some(Lang(reprs[i - 1]))
  }

  /**
   * lexicon_names yields one name per lexicon it gets to: the short name
   * when the language is that of the lexicon before, the full name
   * otherwise; it stops failing at the first repr that does not split
   * into two parts.
   */
  lemma {:induction false} NamesAt(reprs: seq<string>, curlang: Option<string>, i: nat)
    requires i < |reprs|
    ensures var (names, failed) := NamesFrom(reprs, curlang);
      && (i < |names| ==>
            && TwoParts(reprs[i]) && (i > 0 ==> TwoParts(reprs[i - 1]))
            && names[i] == if PrevLang(reprs, curlang, i) == Some(Lang(reprs[i])) then ShortName(reprs[i]) else reprs[i])
      && (failed && i == |names| ==> !TwoParts(reprs[i]))
      && (i < |names| || failed)
  {
    if TwoParts(reprs[0]) && i > 0 {
      NamesAt(reprs[1..], Some(Lang(reprs[0])), i - 1);
      assert reprs[1..][i - 1] == reprs[i];
      if i > 1 {
        assert reprs[1..][i - 2] == reprs[i - 1];
      }
    }
  }

  /** One step of lexicon_names: the first repr either fails or yields its name before the rest. */
  lemma NamesStep(reprs: seq<string>, curlang: Option<string>, i: nat)
    requires i < |reprs|
    ensures !TwoParts(reprs[i]) ==> NamesFrom(reprs[i..], curlang) == ([], true)
    ensures TwoParts(reprs[i]) ==>
      var lang := Lang(reprs[i]);
      var rest := NamesFrom(reprs[i + 1..], Some(lang));
      NamesFrom(reprs[i..], curlang) == ([if Some(lang) == curlang then ShortName(reprs[i]) else reprs[i]] + rest.0, rest.1)
  {
    assert reprs[i..][0] == reprs[i];
    assert reprs[i..][1..] == reprs[i + 1..];
  }

  /** Yields the name of each lexicon, the language left out when it is that of the lexicon before. */
  method LexiconNames(reprs: seq<string>) returns (names: seq<string>, failed: bool)
    ensures names == NamesFrom(reprs, None).0 && failed == NamesFrom(reprs, None).1
  {
    names, failed := [], false;
    var curlang: Option<string> := None;
    var i := 0;
    ghost var all := NamesFrom(reprs, None);
    assert reprs[i..] == reprs;
    while i < |reprs|
      invariant i <= |reprs|
      invariant i > 0 ==> TwoParts(reprs[i - 1]) && curlang == Some(Lang(reprs[i - 1]))
      invariant i == 0 ==> curlang == None
      invariant all.0 == names + NamesFrom(reprs[i..], curlang).0
      invariant all.1 == NamesFrom(reprs[i..], curlang).1
    {
      var fullname := reprs[i];
      NamesStep(reprs, curlang, i);
      if !TwoParts(fullname) {
        failed := true;
        return;
      }
      var lang, name := Lang(fullname), ShortName(fullname);
      ghost var rest := NamesFrom(reprs[i + 1..], Some(lang));
      if Some(lang) == curlang {
        assert names + ([name] + rest.0) == (names + [name]) + rest.0;
        names := names + [name];
      } else {
        assert names + ([fullname] + rest.0) == (names + [fullname]) + rest.0;
        names := names + [fullname];
        curlang := Some(lang);
      }
      i := i + 1;
    }
    assert reprs[i..] == [];
  }
}

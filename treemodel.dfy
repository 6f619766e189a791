/**
 * The parceqt TreeModel: a QAbstractItemModel over a parce tree. A model
 * index points at a node below the root; here it records the path of child
 * positions from the root to that node, and the invalid index stands for
 * the root itself.
 */
module TreeModel {
  import opened Wrappers

  /** A node of the tree: a context with its children, or a token. */
  datatype Node = Context(lexicon: string, children: seq<Node>) | Token(pos: nat, text: string, action: string)

  /** A QModelIndex: invalid, or a row and column and the node it points at. */
  datatype ModelIndex = Invalid | Index(row: int, column: int, path: seq<nat>)

  /** Qt.DisplayRole. */
  const DisplayRole: int := 0

  function Init(path: seq<nat>): seq<nat>
    requires |path| > 0
  {
    path[..|path| - 1]
  }

  function Last(path: seq<nat>): nat
    requires |path| > 0
  {
    path[|path| - 1]
  }

  /** The node reached from the root by following the child positions of path, if there is one. */
  function Lookup(root: Node, path: seq<nat>): Option<Node>
    decreases |path|
  {
    if path == [] then Some(root)
    else match Lookup(root, Init(path))
      case Some(Context(_, children)) => if Last(path) < |children| then Some(children[Last(path)]) else None
      case _ => None
  }

  /** Following one more child position goes one level down. */
  lemma LookupChild(root: Node, path: seq<nat>, row: nat)
    ensures Init(path + [row]) == path && Last(path + [row]) == row
    ensures Lookup(root, path + [row]) ==
      match Lookup(root, path)
      case Some(Context(_, children)) => if row < |children| then Some(children[row]) else None
      case _ => None
  {
    assert (path + [row])[..|path|] == path;
  }

  /** An index as the model makes them: its row is its node's position among its siblings. */
  predicate WellFormed(root: Node, ix: ModelIndex)
  {
    ix.Invalid? || (|ix.path| > 0 && ix.row == Last(ix.path) && ix.column >= 0 && Lookup(root, ix.path).Some?)
  }

  /** The node an index points at, the root for the invalid index. */
  function NodeOf(root: Node, ix: ModelIndex): Option<Node>
  {
    if ix.Invalid? then Some(root) else Lookup(root, ix.path)
  }

  /** The column of an index; the invalid index has column -1. */
  function ColumnOf(ix: ModelIndex): int
  {
    if ix.Invalid? then -1 else ix.column
  }

  function PathOf(ix: ModelIndex): seq<nat>
  {
    if ix.Invalid? then [] else ix.path
  }

  /** rowCount: the number of children of a context in column 0 or of the root, otherwise 0. */
  function RowCount(root: Node, parent: ModelIndex): (n: nat)
    ensures n > 0 ==> ColumnOf(parent) <= 0 && NodeOf(root, parent).Some? && NodeOf(root, parent).value.Context?
    ensures ColumnOf(parent) <= 0 && NodeOf(root, parent).Some? && NodeOf(root, parent).value.Context? ==>
      n == |NodeOf(root, parent).value.children|
  {
    if ColumnOf(parent) <= 0 then
      match NodeOf(root, parent)
      case Some(Context(_, children)) => |children|
      case _ => 0
    else 0
  }

  /** columnCount: a tree has one column. */
  function ColumnCount(root: Node, parent: ModelIndex): (n: nat)
    ensures n == 1
  {
    1
  }

  /** hasIndex: row and column lie inside the parent's rows and columns. */
  predicate HasIndex(root: Node, row: int, column: int, parent: ModelIndex)
  {
    0 <= row < RowCount(root, parent) && 0 <= column < ColumnCount(root, parent)
  }

  /** index: the index of the row-th child of parent's node, or the invalid index when there is none. */
  function IndexOf(root: Node, row: int, column: int, parent: ModelIndex): (ix: ModelIndex)
    requires WellFormed(root, parent)
    ensures ix.Index? <==> HasIndex(root, row, column, parent)
    ensures ix.Index? ==> WellFormed(root, ix) && ix.row == row && ix.column == column
    ensures ix.Index? ==>
      && ix.path == PathOf(parent) + [row as nat]
      && Lookup(root, ix.path) == Some(NodeOf(root, parent).value.children[row])
  {
    if HasIndex(root, row, column, parent) then
      var path := PathOf(parent);
      LookupChild(root, path, row as nat);
      Index(row, column, path + [row as nat])
    else Invalid
  }

  /** parent: the index of the context holding the node, invalid when that context is the root. */
  function ParentOf(root: Node, ix: ModelIndex): (p: ModelIndex)
    requires WellFormed(root, ix)
    ensures WellFormed(root, p)
    ensures p.Index? ==> p.column == 0 && ix.Index? && p.path == Init(ix.path)
    ensures p.Invalid? <==> ix.Invalid? || |ix.path| == 1
  {
    if ix.Index? && |ix.path| > 1 then
      var path := Init(ix.path);
      LookupAncestor(root, ix.path);
      Index(Last(path), 0, path)
    else Invalid
  }

  /** The context above a node reached by a path is reached by the shorter path. */
  lemma LookupAncestor(root: Node, path: seq<nat>)
    requires |path| > 0 && Lookup(root, path).Some?
    ensures Lookup(root, Init(path)).Some? && Lookup(root, Init(path)).value.Context?
  {
  }

  /** data: the node itself (parce gives its repr) for DisplayRole on a valid index, nothing otherwise. */
  function Data(root: Node, ix: ModelIndex, role: int): (d: Option<Node>)
    requires WellFormed(root, ix)
    ensures d.Some? <==> role == DisplayRole && ix.Index?
    ensures d.Some? ==> Lookup(root, ix.path) == d
  {
    if role == DisplayRole && ix.Index? then Lookup(root, ix.path) else None
  }

  /** A token has no rows, and neither has any index of a column other than 0. */
  lemma NoRows(root: Node, parent: ModelIndex)
    requires ColumnOf(parent) > 0 || (NodeOf(root, parent).Some? && NodeOf(root, parent).value.Token?)
    ensures RowCount(root, parent) == 0
  {
  }

  /** The parent of the row-th child of an index in column 0 (or of the root) is that index. */
  lemma ParentOfIndex(root: Node, row: int, column: int, parent: ModelIndex)
    requires WellFormed(root, parent) && ColumnOf(parent) <= 0
    requires HasIndex(root, row, column, parent)
    ensures ParentOf(root, IndexOf(root, row, column, parent)) == parent
  {
    var ix := IndexOf(root, row, column, parent);
    assert Init(ix.path) == PathOf(parent);
  }

  /** Going up to the parent and down to the same row gives back an index in column 0. */
  lemma IndexOfParent(root: Node, ix: ModelIndex)
    requires WellFormed(root, ix) && ix.Index? && ix.column == 0
    ensures IndexOf(root, ix.row, 0, ParentOf(root, ix)) == ix
  {
    var p := ParentOf(root, ix);
    var up := Init(ix.path);
    LookupAncestor(root, ix.path);
    assert PathOf(p) == up;
    assert NodeOf(root, p) == Lookup(root, up);
    var children := Lookup(root, up).value.children;
    assert ix.row < |children|;
    assert RowCount(root, p) == |children|;
    assert HasIndex(root, ix.row, 0, p);
    assert up + [ix.row as nat] == ix.path;
  }
}

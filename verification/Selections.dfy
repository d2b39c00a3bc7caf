/** Semantic table selection (runtime/table_selection.go). */
module Selections {
  import opened Forests
  import opened Protocol
  import opened Documents
  import opened Reducer

  datatype Selection = Selection(index: int, rowId: string)

  type SelectionMap = map<Id, Selection>

  predicate Selectable(n: Node) {
    n.kind.Table? && BoolOf(PropJson(n.props, "selectable"))
  }

  function RowIds(n: Node): seq<string> { StringsOf(PropJson(n.props, "row_ids")) }

  /** A selectable table with at least one row: the only nodes that hold a selection. */
  predicate HoldsSelection(n: Node) { Selectable(n) && TableRows(n.props) > 0 }

  /** A selection that fits the table: an existing row, and that row's identifier when rows have one. */
  predicate Fits(n: Node, s: Selection) {
    && 0 <= s.index < TableRows(n.props)
    && s.rowId == if |RowIds(n)| == TableRows(n.props) then RowIds(n)[s.index] else ""
  }

  function Clamp(index: int, rows: nat): int
    requires rows > 0
  {
    if index < 0 then 0 else if index >= rows then rows - 1 else index
  }

  function SelectionAt(n: Node, index: int): (r: Option<Selection>)
    ensures r.Some? <==> TableRows(n.props) > 0
    ensures r.Some? ==> Fits(n, r.value) && r.value.index == Clamp(index, TableRows(n.props))
  {
    if TableRows(n.props) == 0 then None else
      var i := Clamp(index, TableRows(n.props));
      Some(Selection(i, if |RowIds(n)| == TableRows(n.props) then RowIds(n)[i] else ""))
  }

  /** The first place of `id`, or |ids|. */
  function Find(ids: seq<string>, id: string): (i: nat)
    ensures i <= |ids| && (i < |ids| <==> id in ids) && (i < |ids| ==> ids[i] == id)
  {
    if ids == [] then 0 else if ids[0] == id then 0 else 1 + Find(ids[1..], id)
  }

  /** The remembered row is known by an identifier the table still has. */
  predicate Followable(n: Node, current: Option<Selection>) {
    && current.Some? && current.value.rowId != "" && |RowIds(n)| == TableRows(n.props)
    && current.value.rowId in RowIds(n)
  }

  /** The selection after the table changed: it follows its row if it can, else keeps its place. */
  function Reselect(n: Node, current: Option<Selection>): (r: Option<Selection>)
    ensures r.Some? <==> HoldsSelection(n)
    ensures r.Some? ==> Fits(n, r.value)
  {
    if !HoldsSelection(n) then None
    else if Followable(n, current)
    then Some(Selection(Find(RowIds(n), current.value.rowId), current.value.rowId))
    else SelectionAt(n, if current.Some? then current.value.index else 0)
  }

  function Lookup(m: SelectionMap, id: Id): Option<Selection> { if id in m then Some(m[id]) else None }

  /** All selections, recomputed against the nodes. */
  function ReselectAll(nodes: Nodes, current: SelectionMap): SelectionMap {
    map x | x in nodes && HoldsSelection(nodes[x]) :: Reselect(nodes[x], Lookup(current, x)).value
  }

  // ---- laws ----

  /** Exactly the non-empty selectable tables hold a selection, and it fits. */
  ghost predicate SelectionsFit(nodes: Nodes, m: SelectionMap) {
    && (forall x :: x in m <==> x in nodes && HoldsSelection(nodes[x]))
    && forall x :: x in m && x in nodes ==> Fits(nodes[x], m[x])
  }

  lemma ReselectAllFits(nodes: Nodes, current: SelectionMap)
    ensures SelectionsFit(nodes, ReselectAll(nodes, current))
  {
    hide Fits;
    hide HoldsSelection;
    hide Reselect;
  }

  /**
   A selection follows its row: while the row identifier survives, reordering or inserting rows keeps
   it; otherwise the old index is clamped to the rows there are.
   */
  lemma SelectionFollowsRow(n: Node, s: Selection)
    requires HoldsSelection(n)
    ensures var r := Reselect(n, Some(s));
      && r.Some?
      && (if s.rowId != "" && |RowIds(n)| == TableRows(n.props) && s.rowId in RowIds(n)
          then r.value.rowId == s.rowId && RowIds(n)[r.value.index] == s.rowId
          else r.value.index == Clamp(s.index, TableRows(n.props)))
  {
    hide RowIds;
  }

  /** A fitting selection of a table whose row identifiers are unique is a fixed point. */
  lemma FittingSelectionStays(n: Node, s: Selection)
    requires HoldsSelection(n) && Fits(n, s)
    requires |RowIds(n)| == TableRows(n.props) ==> UniqueNonEmpty(RowIds(n))
    ensures Reselect(n, Some(s)) == Some(s)
  {
    if Followable(n, Some(s)) {
      var ids := RowIds(n);
      var i := Find(ids, s.rowId);
      assert ids[i] == ids[s.index];
    }
  }

  /** The schema of a table makes its row identifiers unique. */
  lemma TableRowIdsUnique(n: Node)
    requires n.kind.Table? && ValidNormalized(n.kind, n.props)
    ensures |RowIds(n)| == TableRows(n.props) ==> UniqueNonEmpty(RowIds(n))
    ensures "row_ids" in n.props ==> |RowIds(n)| == TableRows(n.props)
  {
    assert RowIdsRule in Rules(Table);
    assert Obeys(n.props, RowIdsRule);
  }
}

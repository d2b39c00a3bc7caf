/** runtime/state.go, runtime/table_selection.go and runtime/publication.go as they run, in place. */
module States {
  import opened Forests
  import opened Protocol
  import opened Documents
  import opened Reducer
  import opened Focus
  import opened Bindings
  import opened Selections
  import opened Projections

  /** How a method that ends with `err` and state `s` matches its function. */
  predicate Matches(err: Result, before: Projection, after: Projection, spec: Reconciled) {
    match spec
    case Denied(code) => err == Some(code) && after == before
    case Updated(s) => err == None && after == s
  }

  /** The loop that finds a remembered row. */
  method ReconcileSelection(n: Node, current: Option<Selection>) returns (r: Option<Selection>)
    ensures r == Reselect(n, current)
  {
    if !Selectable(n) || TableRows(n.props) == 0 { return None; }
    var ids := RowIds(n);
    if current.Some? && current.value.rowId != "" && |ids| == TableRows(n.props) {
      for i := 0 to |ids|
        invariant Find(ids, current.value.rowId) == i + Find(ids[i..], current.value.rowId)
      {
        if ids[i] == current.value.rowId { return Some(Selection(i, ids[i])); }
        assert ids[i..][1..] == ids[i + 1..];
      }
    }
    var index := 0;
    if current.Some? { index := current.value.index; }
    r := SelectionAt(n, index);
  }

  class RuntimeState {
    var focusedId: Id
    var inputs: Inputs
    var selections: SelectionMap
    var bindings: KeyMap
    var dirtyRevision: nat
    var publishedRevision: nat
    var renderGeneration: nat
    var publicationGeneration: nat
    var publishedGeneration: nat

    function Value(): Projection
      reads this
    {
      Projection(focusedId, inputs, selections, bindings, dirtyRevision, publishedRevision,
                 renderGeneration, publicationGeneration, publishedGeneration)
    }

    constructor (s: Projection)
      ensures Value() == s
    {
      focusedId, inputs, selections, bindings := s.focusedId, s.inputs, s.selections, s.bindings;
      dirtyRevision, publishedRevision := s.dirtyRevision, s.publishedRevision;
      renderGeneration, publicationGeneration := s.renderGeneration, s.publicationGeneration;
      publishedGeneration := s.publishedGeneration;
    }

    method Become(s: Projection)
      modifies this
      ensures Value() == s
    {
      focusedId, inputs, selections, bindings := s.focusedId, s.inputs, s.selections, s.bindings;
      dirtyRevision, publishedRevision := s.dirtyRevision, s.publishedRevision;
      renderGeneration, publicationGeneration := s.renderGeneration, s.publicationGeneration;
      publishedGeneration := s.publishedGeneration;
    }

    /** Removed and retyped nodes lose their value and the focus. */
    method DropRemoved(op: Operation, eff: Effect)
      modifies this`focusedId, this`inputs
      ensures inputs == KeptInputs(old(Value()), op, eff)
      ensures focusedId ==
        if old(focusedId) in eff.removed || (eff.typeChanged && old(focusedId) == op.id) then "" else old(focusedId)
    {
      for i := 0 to |eff.removed|
        invariant inputs == old(inputs) - set x | x in eff.removed[..i]
        invariant focusedId == if old(focusedId) in eff.removed[..i] then "" else old(focusedId)
      {
        assert eff.removed[..i + 1] == eff.removed[..i] + [eff.removed[i]];
        inputs := inputs - {eff.removed[i]};
        if focusedId == eff.removed[i] { focusedId := ""; }
      }
      assert eff.removed[..|eff.removed|] == eff.removed;
      if eff.typeChanged {
        inputs := inputs - {op.id};
        if focusedId == op.id { focusedId := ""; }
      }
    }

    /** Every input of the next document gets a value, visiting the nodes in any order. */
    method FillInputs(prev: Nodes, next: Nodes, op: Operation, eff: Effect)
      modifies this`inputs
      ensures inputs == old(inputs)
        + map x | x in next && next[x].kind.Input? :: InputFor(old(inputs), prev, next, x, op, eff)
    {
      hide InputDefault;
      ghost var kept := inputs;
      var todo := next.Keys;
      while todo != {}
        invariant todo <= next.Keys
        invariant forall x :: x in inputs <==> x in kept || (x in next && x !in todo && next[x].kind.Input?)
        invariant forall x :: x in inputs && x in next && x !in todo && next[x].kind.Input? ==>
          inputs[x] == InputFor(kept, prev, next, x, op, eff)
        invariant forall x :: x in inputs && !(x in next && x !in todo && next[x].kind.Input?) ==> inputs[x] == kept[x]
      {
        var id :| id in todo;
        var n := next[id];
        if n.kind.Input? {
          if id !in prev || !prev[id].kind.Input? {
            inputs := inputs[id := InputDefault(n)];
          } else if eff.force && id == op.id {
            inputs := inputs[id := InputDefault(n)];
          } else if id !in inputs {
            inputs := inputs[id := InputDefault(n)];
          }
        }
        todo := todo - {id};
      }
    }

    /** Stale selections are dropped, then every table is visited, in any order. */
    method ReconcileTableSelections(next: Nodes)
      modifies this`selections
      ensures selections == ReselectAll(next, old(selections))
    {
      hide Selectable;
      hide TableRows;
      hide Reselect;
      hide Fits;
      ghost var before := selections;
      var stale := selections.Keys;
      while stale != {}
        invariant stale <= before.Keys
        invariant selections ==
          map x | x in before && (x in stale || (x in next && HoldsSelection(next[x]))) :: before[x]
      {
        var id :| id in stale;
        if id !in next || !Selectable(next[id]) || TableRows(next[id].props) == 0 {
          selections := selections - {id};
        }
        stale := stale - {id};
      }
      var todo := next.Keys;
      while todo != {}
        invariant todo <= next.Keys
        invariant forall x :: x in selections <==>
          x in next && HoldsSelection(next[x]) && (x in before || x !in todo)
        invariant forall x :: x in selections && x in todo ==> selections[x] == before[x]
        invariant forall x :: x in selections && x !in todo ==>
          selections[x] == Reselect(next[x], Lookup(before, x)).value
      {
        var id :| id in todo;
        var n := next[id];
        if Selectable(n) {
          var current := if id in selections then Some(selections[id]) else None;
          var selection := ReconcileSelection(n, current);
          if selection.Some? {
            selections := selections[id := selection.value];
          } else {
            selections := selections - {id};
          }
        }
        todo := todo - {id};
      }
    }

    /**
     A copy is reconciled with the next document and then takes the place of the state; an error
     leaves the state as it was.
     */
    method Reconcile(prev: Document, next: Document, op: Operation, eff: Effect) returns (err: Result)
      requires IsTree(next.nodes) && NO_PARENT !in next.nodes
      modifies this
      ensures Matches(err, old(Value()), Value(), Projections.Reconcile(old(Value()), prev, next, op, eff))
    {
      hide IsTree;
      hide KeptInputs;
      hide Stepped;
      hide InputFor;
      hide Focusable;
      hide ReselectAll;
      hide NextFocus;
      var hadFocus := focusedId != "";
      var cand := new RuntimeState(Value());
      cand.DropRemoved(op, eff);
      cand.FillInputs(prev.nodes, next.nodes, op, eff);
      err := cand.MoveFocus(next, op, eff, hadFocus, focusedId);
      if err.Some? { return; }
      cand.ReconcileTableSelections(next.nodes);
      var bound := BindKeys(next);
      hide BuildBindings;
      if bound.Conflict? { return Some(bound.code); }
      cand.bindings := bound.bindings;
      Adopt(cand, next, eff);
    }

    /** The reconciled copy takes the place of the state. */
    method Adopt(cand: RuntimeState, next: Document, eff: Effect)
      requires cand != this && cand.dirtyRevision == dirtyRevision && cand.publishedRevision == publishedRevision
      requires cand.renderGeneration == renderGeneration && cand.publishedGeneration == publishedGeneration
      requires cand.publicationGeneration == publicationGeneration
      modifies this, cand
      ensures Value() == old(Stepped(Value(), next, eff, cand.focusedId, cand.inputs, cand.selections, cand.bindings))
    {
      if eff.changed { cand.dirtyRevision := next.revision; }
      var changed := eff.changed || cand.focusedId != focusedId || cand.inputs != inputs
        || cand.selections != selections || cand.bindings != bindings;
      if changed {
        cand.renderGeneration := renderGeneration + 1;
        cand.publicationGeneration := publicationGeneration + 1;
      }
      Become(cand.Value());
    }

    /** The focus part: an explicit focus, a focus that became invalid, and the fallback. */
    method MoveFocus(next: Document, op: Operation, eff: Effect, hadFocus: bool, ghost before: Id) returns (err: Result)
      requires IsTree(next.nodes) && NO_PARENT !in next.nodes
      requires hadFocus <==> before != ""
      requires focusedId == if before in eff.removed || (eff.typeChanged && before == op.id) then "" else before
      modifies this`focusedId
      ensures op.op == OpFocus && op.id !in next.nodes ==> err == Some(FocusTargetMissing)
      ensures op.op == OpFocus && op.id in next.nodes && !Focusable(next.nodes[op.id]) ==> err == Some(NotFocusable)
      ensures !(op.op == OpFocus && (op.id !in next.nodes || !Focusable(next.nodes[op.id]))) ==>
        err == None && focusedId == NextFocus(before, next.nodes, op, eff)
    {
      var nodes := next.nodes;
      if op.op == OpFocus {
        if op.id !in nodes { return Some(FocusTargetMissing); }
        if !Focusable(nodes[op.id]) { return Some(NotFocusable); }
        focusedId := op.id;
      }
      if focusedId != "" {
        if focusedId !in nodes || !Focusable(nodes[focusedId]) { focusedId := ""; }
      }
      if hadFocus && focusedId == "" && NeedsFallback(op, eff) {
        focusedId := FirstFocusable(nodes, ROOT, Shape(nodes).kids, NO_PARENT);
      }
      err := None;
    }

    method SetLocalFocus(d: Document, id: Id) returns (err: Result)
      modifies this
      ensures Matches(err, old(Value()), Value(), Projections.SetLocalFocus(old(Value()), d.nodes, id))
    {
      if id !in d.nodes { return Some(FocusTargetMissing); }
      if !Focusable(d.nodes[id]) { return Some(NotFocusable); }
      if focusedId == id { return None; }
      focusedId := id;
      renderGeneration := renderGeneration + 1;
      err := None;
    }

    method SetInputValue(id: Id, value: string) returns (changed: bool)
      modifies this
      ensures Value() == Projections.SetInputValue(old(Value()), id, value)
      ensures changed <==> Value() != old(Value())
    {
      var current := if id in inputs then inputs[id] else "";
      if current == value { return false; }
      inputs := inputs[id := value];
      renderGeneration := renderGeneration + 1;
      changed := true;
    }

    method SetTableSelection(d: Document, id: Id, index: int) returns (err: Result)
      modifies this
      ensures Matches(err, old(Value()), Value(), SelectRow(old(Value()), d.nodes, id, index))
    {
      if id !in d.nodes { return Some(NodeNotFound); }
      var n := d.nodes[id];
      if !n.kind.Table? { return Some(NotTable); }
      if !Selectable(n) { return Some(NotSelectable); }
      var next := SelectionAt(n, index);
      if next.None? {
        if id in selections {
          selections := selections - {id};
          renderGeneration := renderGeneration + 1;
        }
        return None;
      }
      if id in selections && selections[id] == next.value { return None; }
      selections := selections[id := next.value];
      renderGeneration := renderGeneration + 1;
      err := None;
    }

    method MoveTableSelection(d: Document, id: Id, delta: int) returns (err: Result)
      modifies this
      ensures Matches(err, old(Value()), Value(), MoveRow(old(Value()), d.nodes, id, delta))
    {
      if id !in d.nodes { return Some(NodeNotFound); }
      var n := d.nodes[id];
      if !n.kind.Table? { return Some(NotTable); }
      if !Selectable(n) { return Some(NotSelectable); }
      if TableRows(n.props) == 0 { return None; }
      var current := 0;
      if id in selections { current := selections[id].index; }
      err := SetTableSelection(d, id, current + delta);
    }

    method Publish()
      modifies this
      ensures Value() == Published(old(Value()))
    {
      if publicationGeneration > publishedGeneration { publishedGeneration := publicationGeneration; }
      if dirtyRevision > publishedRevision { publishedRevision := dirtyRevision; }
    }
  }
}

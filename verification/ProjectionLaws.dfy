/** The projection along operations, relocations and local interaction. */
module ProjectionLaws {
  import opened Forests
  import opened Protocol
  import opened Documents
  import opened Sums
  import opened Reducer
  import opened TreeSteps
  import opened Preservation
  import opened DocumentLaws
  import opened RemovalLaws
  import opened UpsertLaws
  import opened Focus
  import opened Bindings
  import opened Selections
  import opened Projections

  // ---- every accepted operation accounts for the nodes that vanish or change type ----

  lemma RemoveTracked(d: Document, op: Operation)
    requires IsTree(d.nodes) && op.id in d.nodes && op.id != ROOT
    ensures var r := Remove(d, op.id);
      && (forall x :: x in d.nodes ==>
            (x in r.doc.nodes && r.doc.nodes[x].kind == d.nodes[x].kind) || x in r.eff.removed)
      && forall x :: x in r.eff.removed ==> x !in r.doc.nodes
  {
    RemovedList(d.nodes, op.id);
    var gone := Subtree(Shape(d.nodes), op.id);
    var removed := Postorder(KidsOf(Shape(d.nodes), op.id)) + [op.id];
    assert forall x :: x in removed <==> x in gone;
    CutContent(d.nodes, op.id, gone);
    hide Subtree;
    hide IsTree;
    hide ListsBottomUp;
  }

  lemma ExistingTracked(d: Document, op: Operation, props: Props, force: bool, limits: Limits)
    requires ReadyToMove(d.nodes) && op.id in d.nodes && op.id != ROOT
    requires UpsertExisting(d, op, props, force, limits).Applied?
    ensures var r := UpsertExisting(d, op, props, force, limits);
      && (forall x :: x in d.nodes ==>
            && x in r.doc.nodes
            && (r.doc.nodes[x].kind == d.nodes[x].kind || (r.eff.typeChanged && x == op.id)))
      && r.eff.removed == []
  {
    hide IsTree;
    hide Subtree;
    hide TableLimits;
    hide InsertChild;
    hide Marks;
  }

  lemma FreshTracked(d: Document, op: Operation, props: Props, force: bool, limits: Limits)
    requires op.id !in d.nodes && UpsertFresh(d, op, props, force, limits).Applied?
    ensures var r := UpsertFresh(d, op, props, force, limits);
      && (forall x :: x in d.nodes ==> x in r.doc.nodes && r.doc.nodes[x].kind == d.nodes[x].kind)
      && r.eff.removed == []
  {
    hide TableLimits;
    hide InsertChild;
    hide Marks;
  }

  lemma PatchTracked(d: Document, op: Operation, limits: Limits)
    requires PatchProps(d, op, limits).Applied?
    ensures var r := PatchProps(d, op, limits);
      && (forall x :: x in d.nodes ==> x in r.doc.nodes && r.doc.nodes[x].kind == d.nodes[x].kind)
      && r.eff.removed == []
  {
    hide TableLimits;
    hide MergeNormalized;
    hide Marks;
  }

  lemma DraftTracked(d: Document, op: Operation, limits: Limits)
    requires ReadyToMove(d.nodes) && Draft(d, op, limits).Applied?
    ensures var r := Draft(d, op, limits);
      && (forall x :: x in d.nodes ==>
            || (x in r.doc.nodes && r.doc.nodes[x].kind == d.nodes[x].kind)
            || x in r.eff.removed
            || (r.eff.typeChanged && x == op.id))
      && forall x :: x in r.eff.removed ==> x !in r.doc.nodes
  {
    hide UpsertExisting;
    hide UpsertFresh;
    hide PatchProps;
    hide NormalizeProps;
    match op.op {
      case OpUpsert =>
        var a := NormalizeProps(op.kind, op.props, true);
        if op.id in d.nodes {
          ExistingTracked(d, op, a.props, a.force, limits);
        } else {
          FreshTracked(d, op, a.props, a.force, limits);
        }
      case OpProps => PatchTracked(d, op, limits);
      case OpText =>
      case OpRemove => RemoveTracked(d, op);
      case OpFocus =>
      case OpCommit =>
      case OpOther =>
    }
  }

  lemma ApplyTracked(d: Document, op: Operation, limits: Limits)
    requires Sound(d, limits) && 0 <= limits.maxTextBytesPerNode && ReadyToMove(d.nodes)
    requires Apply(d, op, limits).Applied?
    ensures var r := Apply(d, op, limits);
      && Sound(r.doc, limits) && ReadyToMove(r.doc.nodes)
      && KindsTracked(d, r.doc, op, r.eff)
  {
    ApplySound(d, op, limits);
    hide *;
    if ValidateOperation(op, limits).Some? {
      InvalidRefused(d, op, limits);
    } else {
      var r := Apply(d, op, limits);
      SoundReady(r.doc, limits);
      ApplyCases(d, op, limits);
      DraftTracked(d, op, limits);
      TrackedFrom(d, Draft(d, op, limits).doc, r.doc, op, r.eff);
    }
  }

  lemma TrackedFrom(d: Document, draft: Document, next: Document, op: Operation, eff: Effect)
    requires next.nodes == draft.nodes
    requires forall x :: x in d.nodes ==>
      || (x in draft.nodes && draft.nodes[x].kind == d.nodes[x].kind)
      || x in eff.removed
      || (eff.typeChanged && x == op.id)
    requires forall x :: x in eff.removed ==> x !in draft.nodes
    requires (eff.changed ==> next.revision == d.revision + 1) && (!eff.changed ==> next == d)
    ensures KindsTracked(d, next, op, eff)
  {
  }

  lemma SoundReady(d: Document, limits: Limits)
    requires Sound(d, limits)
    ensures ReadyToMove(d.nodes) && Intact(d, limits) && Valid(d, limits)
  {
    SoundIntact(d, limits);
    ReadyFromIntact(d, limits);
  }

  // ---- operations that leave types and properties alone ----

  /** The same nodes with the same types and properties, wherever they hang. */
  ghost predicate SameContent(prev: Nodes, next: Nodes) {
    next.Keys == prev.Keys && forall x :: x in prev ==> next[x].kind == prev[x].kind && next[x].props == prev[x].props
  }

  /** Only a forced input loses its value, to its default. */
  function ForcedInputs(s: Projection, next: Nodes, op: Operation, eff: Effect): Inputs {
    if eff.force && op.id in next && next[op.id].kind.Input?
    then s.inputs[op.id := InputDefault(next[op.id])]
    else s.inputs
  }

  /**
   Reconciliation with a document of the same content never fails, and leaves focus, selections and
   bindings alone, and input values but for a forced one.
   */
  lemma SameContentReconciled(s: Projection, prev: Document, next: Document, op: Operation, eff: Effect, limits: Limits)
    requires Intact(prev, limits) && Consistent(s, prev) && IsTree(next.nodes) && op.op == OpUpsert
    requires SameContent(prev.nodes, next.nodes) && eff.removed == [] && !eff.typeChanged
    ensures var r := Reconcile(s, prev, next, op, eff);
      && r.Updated?
      && r.state.inputs == ForcedInputs(s, next.nodes, op, eff) && r.state.selections == s.selections
      && r.state.bindings == s.bindings && r.state.focusedId == s.focusedId
  {
    IntactTree(prev, limits);
    IntactKept(prev, limits);
    assert InputsFit(prev.nodes, s.inputs) && SelectionsFit(prev.nodes, s.selections);
    assert BuildBindings(prev.nodes) == Indexed(s.bindings);
    assert s.focusedId == "" || (s.focusedId in prev.nodes && Focusable(prev.nodes[s.focusedId]));
    SameContentIs(prev.nodes, next.nodes);
    hide *;
    BindingsFollowContent(prev.nodes, next.nodes);
    SameInputs(s, prev.nodes, next.nodes, op, eff);
    SameSelections(prev, next.nodes, s.selections, limits);
    SameFocus(s.focusedId, prev.nodes, next.nodes, op, eff);
    ReconcileSame(s, prev, next, op, eff);
  }

  lemma SameContentIs(prev: Nodes, next: Nodes)
    requires SameContent(prev, next)
    ensures next.Keys == prev.Keys
    ensures forall x :: x in prev ==> next[x].kind == prev[x].kind && next[x].props == prev[x].props
  {
  }

  lemma IntactKept(d: Document, limits: Limits)
    requires Intact(d, limits)
    ensures Kept(d.nodes, limits)
  {
  }

  lemma SameFocus(focused: Id, prev: Nodes, next: Nodes, op: Operation, eff: Effect)
    requires IsTree(next) && next.Keys == prev.Keys
    requires forall x :: x in prev ==> next[x].kind == prev[x].kind && next[x].props == prev[x].props
    requires focused == "" || (focused in prev && Focusable(prev[focused]))
    requires op.op != OpFocus && eff.removed == [] && !eff.typeChanged
    ensures NextFocus(focused, next, op, eff) == focused
  {
    hide IsTree;
    hide FirstStop;
  }

  lemma ReconcileSame(s: Projection, prev: Document, next: Document, op: Operation, eff: Effect)
    requires IsTree(next.nodes) && op.op != OpFocus
    requires BuildBindings(next.nodes) == Indexed(s.bindings)
    requires ReselectAll(next.nodes, s.selections) == s.selections
    requires NextFocus(s.focusedId, next.nodes, op, eff) == s.focusedId
    ensures var r := Reconcile(s, prev, next, op, eff);
      && r.Updated?
      && r.state.inputs == NextInputs(s, prev.nodes, next.nodes, op, eff) && r.state.selections == s.selections
      && r.state.bindings == s.bindings && r.state.focusedId == s.focusedId
  {
    hide IsTree;
    hide BuildBindings;
    hide NextInputs;
    hide ReselectAll;
    hide NextFocus;
  }

  lemma SameInputs(s: Projection, prev: Nodes, next: Nodes, op: Operation, eff: Effect)
    requires InputsFit(prev, s.inputs) && next.Keys == prev.Keys
    requires forall x :: x in prev ==> next[x].kind == prev[x].kind
    requires eff.removed == [] && !eff.typeChanged
    ensures NextInputs(s, prev, next, op, eff) == ForcedInputs(s, next, op, eff)
  {
    assert (set x | x in eff.removed) == {};
    assert KeptInputs(s, op, eff) == s.inputs;
    hide InputDefault;
  }

  lemma SameSelections(d: Document, next: Nodes, m: SelectionMap, limits: Limits)
    requires Intact(d, limits) && SelectionsFit(d.nodes, m) && next.Keys == d.nodes.Keys
    requires forall x :: x in d.nodes ==> next[x].kind == d.nodes[x].kind && next[x].props == d.nodes[x].props
    ensures ReselectAll(next, m) == m
  {
    IntactKept(d, limits);
    SameHolders(d.nodes, next, m);
    hide *;
    forall x | x in m ensures Reselect(next[x], Some(m[x])) == Some(m[x]) {
      KeptAt(d.nodes, x, limits);
      KeptTable(x, d.nodes[x], next[x], m[x], limits);
    }
    ReselectSame(next, m);
  }

  lemma KeptTable(x: Id, n: Node, n': Node, s: Selection, limits: Limits)
    requires NodeKept(x, n, limits) && n'.kind == n.kind && n'.props == n.props && HoldsSelection(n') && Fits(n', s)
    ensures Reselect(n', Some(s)) == Some(s)
  {
    TableRowIdsUnique(n');
    FittingSelectionStays(n', s);
  }

  lemma ReselectSame(next: Nodes, m: SelectionMap)
    requires forall x :: x in m <==> x in next && HoldsSelection(next[x])
    requires forall x :: x in m ==> Reselect(next[x], Some(m[x])) == Some(m[x])
    ensures ReselectAll(next, m) == m
  {
    hide HoldsSelection;
    hide Reselect;
  }

  lemma SameHolders(nodes: Nodes, next: Nodes, m: SelectionMap)
    requires SelectionsFit(nodes, m) && next.Keys == nodes.Keys
    requires forall x :: x in nodes ==> next[x].kind == nodes[x].kind && next[x].props == nodes[x].props
    ensures forall x :: x in m <==> x in next && HoldsSelection(next[x])
    ensures forall x :: x in m ==> Fits(next[x], m[x])
  {
  }

  // ---- local interaction ----

  /** Focusing, typing and selecting keep the projection consistent, and never ask for publication. */
  lemma FocusConsistent(s: Projection, d: Document, id: Id)
    requires Consistent(s, d)
    ensures var r := SetLocalFocus(s, d.nodes, id);
      r.Updated? ==> Consistent(r.state, d) && r.state.publicationGeneration == s.publicationGeneration
  {
    hide IsTree;
    hide BuildBindings;
    hide SelectionsFit;
    hide InputsFit;
  }

  lemma TypingConsistent(s: Projection, d: Document, id: Id, value: string)
    requires Consistent(s, d) && id in d.nodes && d.nodes[id].kind.Input?
    ensures var r := SetInputValue(s, id, value);
      Consistent(r, d) && r.publicationGeneration == s.publicationGeneration
  {
    hide IsTree;
    hide BuildBindings;
    hide SelectionsFit;
  }

  lemma SelectingConsistent(s: Projection, d: Document, id: Id, index: int)
    requires Consistent(s, d)
    ensures var r := SelectRow(s, d.nodes, id, index);
      r.Updated? ==> Consistent(r.state, d) && r.state.publicationGeneration == s.publicationGeneration
  {
    hide *;
    ConsistentIs(s, d);
    SelectedRow(s, d.nodes, id, index);
    var r := SelectRow(s, d.nodes, id, index);
    if r.Updated? { ConsistentIs(r.state, d); }
  }

  /** Only the selections change, and they go on fitting. */
  lemma SelectedRow(s: Projection, nodes: Nodes, id: Id, index: int)
    requires SelectionsFit(nodes, s.selections)
    ensures var r := SelectRow(s, nodes, id, index);
      r.Updated? ==>
        && r.state == s.(selections := r.state.selections, renderGeneration := r.state.renderGeneration)
        && r.state.renderGeneration >= s.renderGeneration && SelectionsFit(nodes, r.state.selections)
  {
    hide RowIds;
    hide TableRows;
    hide Fits;
  }

  lemma MovingConsistent(s: Projection, d: Document, id: Id, delta: int)
    requires Consistent(s, d)
    ensures var r := MoveRow(s, d.nodes, id, delta);
      r.Updated? ==> Consistent(r.state, d) && r.state.publicationGeneration == s.publicationGeneration
  {
    SelectingConsistent(s, d, id, (if id in s.selections then s.selections[id].index else 0) + delta);
    hide Consistent;
    hide SelectRow;
  }
}

/**
 The runtime projection of a document and its reconciliation with the next one (runtime/state.go),
 as a function; `RuntimeState` in module States runs it.
 */
module Projections {
  import opened Forests
  import opened Protocol
  import opened Documents
  import opened Reducer
  import opened Preservation
  import opened Focus
  import opened Bindings
  import opened Selections

  type Inputs = map<Id, string>

  datatype Projection = Projection(
    focusedId: Id, inputs: Inputs, selections: SelectionMap, bindings: KeyMap,
    dirtyRevision: nat, publishedRevision: nat,
    renderGeneration: nat, publicationGeneration: nat, publishedGeneration: nat)

  datatype Reconciled = Denied(code: Code) | Updated(state: Projection)

  const EMPTY := Projection("", map[], map[], map[], 0, 0, 0, 0, 0)

  // ---- reconciliation ----

  function InputDefault(n: Node): string { StringOf(PropJson(n.props, "value")) }

  /** Values of inputs that survive the operation. */
  function KeptInputs(s: Projection, op: Operation, eff: Effect): Inputs {
    s.inputs - (set x | x in eff.removed) - if eff.typeChanged then {op.id} else {}
  }

  function InputFor(kept: Inputs, prev: Nodes, next: Nodes, x: Id, op: Operation, eff: Effect): string
    requires x in next
  {
    if x !in prev || !prev[x].kind.Input? then InputDefault(next[x])
    else if eff.force && x == op.id then InputDefault(next[x])
    else if x in kept then kept[x]
    else InputDefault(next[x])
  }

  function NextInputs(s: Projection, prev: Nodes, next: Nodes, op: Operation, eff: Effect): Inputs {
    var kept := KeptInputs(s, op, eff);
    kept + map x | x in next && next[x].kind.Input? :: InputFor(kept, prev, next, x, op, eff)
  }

  predicate NeedsFallback(op: Operation, eff: Effect) {
    op.op == OpRemove || op.op == OpProps || op.op == OpUpsert || eff.typeChanged
  }

  /** The old focus as far as it survives: its node is still there, of the same type, and focusable. */
  function SurvivingFocus(f: Id, next: Nodes, op: Operation, eff: Effect): Id {
    if f in eff.removed || (eff.typeChanged && f == op.id) then ""
    else if f in next && Focusable(next[f]) then f else ""
  }

  ghost function NextFocus(focused: Id, next: Nodes, op: Operation, eff: Effect): Id
    requires IsTree(next)
  {
    if op.op == OpFocus then op.id
    else
      var f := SurvivingFocus(focused, next, op, eff);
      if focused != "" && f == "" && NeedsFallback(op, eff) then FirstStop(next) else f
  }

  ghost function Reconcile(s: Projection, prev: Document, next: Document, op: Operation, eff: Effect): Reconciled
    requires IsTree(next.nodes)
  {
    if op.op == OpFocus && op.id !in next.nodes then Denied(FocusTargetMissing)
    else if op.op == OpFocus && !Focusable(next.nodes[op.id]) then Denied(NotFocusable)
    else match BuildBindings(next.nodes)
      case Conflict(code) => Denied(code)
      case Indexed(bindings) =>
        Updated(Stepped(s, next, eff, NextFocus(s.focusedId, next.nodes, op, eff),
                        NextInputs(s, prev.nodes, next.nodes, op, eff),
                        ReselectAll(next.nodes, s.selections), bindings))
  }

  /** The new projection; the generations advance exactly when it, or the document, changed. */
  function Stepped(s: Projection, next: Document, eff: Effect,
                   focus: Id, inputs: Inputs, selections: SelectionMap, bindings: KeyMap): Projection {
    var changed := eff.changed || focus != s.focusedId || inputs != s.inputs
                   || selections != s.selections || bindings != s.bindings;
    var step := if changed then 1 else 0;
    s.(focusedId := focus, inputs := inputs, selections := selections, bindings := bindings,
       dirtyRevision := if eff.changed then next.revision else s.dirtyRevision,
       renderGeneration := s.renderGeneration + step,
       publicationGeneration := s.publicationGeneration + step)
  }

  // ---- local interaction ----

  function SetLocalFocus(s: Projection, nodes: Nodes, id: Id): Reconciled {
    if id !in nodes then Denied(FocusTargetMissing)
    else if !Focusable(nodes[id]) then Denied(NotFocusable)
    else if s.focusedId == id then Updated(s)
    else Updated(s.(focusedId := id, renderGeneration := s.renderGeneration + 1))
  }

  /** A missing entry reads as the empty string. */
  function SetInputValue(s: Projection, id: Id, value: string): Projection {
    if (if id in s.inputs then s.inputs[id] else "") == value then s
    else s.(inputs := s.inputs[id := value], renderGeneration := s.renderGeneration + 1)
  }

  function SelectRow(s: Projection, nodes: Nodes, id: Id, index: int): Reconciled {
    if id !in nodes then Denied(NodeNotFound)
    else if !nodes[id].kind.Table? then Denied(NotTable)
    else if !Selectable(nodes[id]) then Denied(NotSelectable)
    else match SelectionAt(nodes[id], index)
      case None =>
        if id in s.selections
        then Updated(s.(selections := s.selections - {id}, renderGeneration := s.renderGeneration + 1))
        else Updated(s)
      case Some(next) =>
        if id in s.selections && s.selections[id] == next then Updated(s)
        else Updated(s.(selections := s.selections[id := next], renderGeneration := s.renderGeneration + 1))
  }

  function MoveRow(s: Projection, nodes: Nodes, id: Id, delta: int): Reconciled {
    if id !in nodes then Denied(NodeNotFound)
    else if !nodes[id].kind.Table? then Denied(NotTable)
    else if !Selectable(nodes[id]) then Denied(NotSelectable)
    else if TableRows(nodes[id].props) == 0 then Updated(s)
    else SelectRow(s, nodes, id, (if id in s.selections then s.selections[id].index else 0) + delta)
  }

  // ---- publication ----

  predicate NeedsPublish(s: Projection) { s.publicationGeneration > s.publishedGeneration }

  function Published(s: Projection): Projection {
    s.(publishedGeneration := if NeedsPublish(s) then s.publicationGeneration else s.publishedGeneration,
       publishedRevision := if s.dirtyRevision > s.publishedRevision then s.dirtyRevision else s.publishedRevision)
  }

  // ---- agreement of a projection with its document ----

  /** Exactly the input nodes have a value. */
  ghost predicate InputsFit(nodes: Nodes, inputs: Inputs) {
    forall x :: x in inputs <==> x in nodes && nodes[x].kind.Input?
  }

  /** The projection says of the document exactly what the document says. */
  ghost predicate Consistent(s: Projection, d: Document) {
    && IsTree(d.nodes)
    && InputsFit(d.nodes, s.inputs)
    && SelectionsFit(d.nodes, s.selections)
    && BuildBindings(d.nodes) == Indexed(s.bindings)
    && (s.focusedId == "" || (s.focusedId in d.nodes && Focusable(d.nodes[s.focusedId])))
    && s.dirtyRevision == d.revision && s.publishedRevision <= s.dirtyRevision
    && s.publishedGeneration <= s.publicationGeneration <= s.renderGeneration
  }

  /** What an operation does to the types of nodes, as far as a projection cares. */
  ghost predicate KindsTracked(prev: Document, next: Document, op: Operation, eff: Effect) {
    && (forall x :: x in prev.nodes ==>
          || (x in next.nodes && next.nodes[x].kind == prev.nodes[x].kind)
          || x in eff.removed
          || (eff.typeChanged && x == op.id))
    && (forall x :: x in eff.removed ==> x !in next.nodes)
    && (eff.changed ==> next.revision == prev.revision + 1)
    && (!eff.changed ==> next == prev)
  }

  lemma InputKeys(s: Projection, prev: Document, next: Document, op: Operation, eff: Effect)
    requires InputsFit(prev.nodes, s.inputs) && KindsTracked(prev, next, op, eff)
    ensures InputsFit(next.nodes, NextInputs(s, prev.nodes, next.nodes, op, eff))
  {
  }

  lemma NextFocusOk(focused: Id, next: Nodes, op: Operation, eff: Effect)
    requires IsTree(next) && (op.op == OpFocus ==> op.id in next && Focusable(next[op.id]))
    ensures var f := NextFocus(focused, next, op, eff); f == "" || (f in next && Focusable(next[f]))
  {
    FocusOrderIs(next);
    hide IsTree;
    hide FocusOrder;
    hide Focusable;
    if FocusOrder(next) != [] { assert FirstStop(next) in FocusOrder(next); }
  }

  /** Reconciliation keeps the projection consistent, with the next document. */
  lemma ReconcileConsistent(s: Projection, prev: Document, next: Document, op: Operation, eff: Effect)
    requires Consistent(s, prev) && IsTree(next.nodes) && KindsTracked(prev, next, op, eff)
    ensures var r := Reconcile(s, prev, next, op, eff);
      r.Updated? ==> Consistent(r.state, next)
  {
    hide *;
    ConsistentIs(s, prev);
    ReconcileCases(s, prev, next, op, eff);
    var r := Reconcile(s, prev, next, op, eff);
    if r.Updated? {
      InputKeys(s, prev, next, op, eff);
      ReselectAllFits(next.nodes, s.selections);
      NextFocusOk(s.focusedId, next.nodes, op, eff);
      TrackedRevision(prev, next, op, eff);
      SteppedCounters(s, next, eff, r.state.focusedId, r.state.inputs, r.state.selections, r.state.bindings);
      ConsistentIs(r.state, next);
    }
  }

  lemma ConsistentIs(s: Projection, d: Document)
    ensures Consistent(s, d) <==>
      && IsTree(d.nodes) && InputsFit(d.nodes, s.inputs) && SelectionsFit(d.nodes, s.selections)
      && BuildBindings(d.nodes) == Indexed(s.bindings)
      && (s.focusedId == "" || (s.focusedId in d.nodes && Focusable(d.nodes[s.focusedId])))
      && s.dirtyRevision == d.revision && s.publishedRevision <= s.dirtyRevision
      && s.publishedGeneration <= s.publicationGeneration <= s.renderGeneration
  {
    hide IsTree;
    hide InputsFit;
    hide SelectionsFit;
    hide BuildBindings;
    hide Focusable;
  }

  /** What is known of an updated projection, and of the focus that was asked for. */
  lemma ReconcileCases(s: Projection, prev: Document, next: Document, op: Operation, eff: Effect)
    requires IsTree(next.nodes)
    ensures var r := Reconcile(s, prev, next, op, eff);
      r.Updated? ==>
        && (op.op == OpFocus ==> op.id in next.nodes && Focusable(next.nodes[op.id]))
        && BuildBindings(next.nodes) == Indexed(r.state.bindings)
        && r.state.focusedId == NextFocus(s.focusedId, next.nodes, op, eff)
        && r.state.inputs == NextInputs(s, prev.nodes, next.nodes, op, eff)
        && r.state.selections == ReselectAll(next.nodes, s.selections)
        && r.state == Stepped(s, next, eff, r.state.focusedId, r.state.inputs, r.state.selections, r.state.bindings)
  {
    hide IsTree;
    hide BuildBindings;
    hide NextInputs;
    hide NextFocus;
    hide ReselectAll;
    hide Focusable;
  }

  lemma SteppedCounters(s: Projection, next: Document, eff: Effect,
                        focus: Id, inputs: Inputs, selections: SelectionMap, bindings: KeyMap)
    ensures var s' := Stepped(s, next, eff, focus, inputs, selections, bindings);
      && s'.dirtyRevision == (if eff.changed then next.revision else s.dirtyRevision)
      && s'.publishedRevision == s.publishedRevision && s'.publishedGeneration == s.publishedGeneration
      && s.publicationGeneration <= s'.publicationGeneration
      && s'.renderGeneration - s'.publicationGeneration == s.renderGeneration - s.publicationGeneration
  {
  }

  lemma TrackedRevision(prev: Document, next: Document, op: Operation, eff: Effect)
    requires KindsTracked(prev, next, op, eff)
    ensures prev.revision <= next.revision && (!eff.changed ==> next.revision == prev.revision)
  {
  }
}

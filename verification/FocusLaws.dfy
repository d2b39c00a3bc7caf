/** What becomes of the focus, over the engine: it stays on its node or falls back, after every operation. */
module FocusLaws {
  import opened Forests
  import opened Protocol
  import opened Documents
  import opened Reducer
  import opened Preservation
  import opened DocumentLaws
  import opened Focus
  import opened Projections
  import opened ProjectionLaws
  import opened Engines
  import Bindings
  import Selections

  /** Text, commit and focus operations keep every node's type and properties; only a real retyping is reported. */
  ghost predicate FocusTracked(prev: Document, next: Document, op: Operation, eff: Effect) {
    && (eff.typeChanged ==>
          op.id in prev.nodes && op.id in next.nodes && next.nodes[op.id].kind != prev.nodes[op.id].kind)
    && (!NeedsFallback(op, eff) ==> forall x :: x in prev.nodes ==>
          x in next.nodes && next.nodes[x].kind == prev.nodes[x].kind && next.nodes[x].props == prev.nodes[x].props)
  }

  lemma DraftFocus(d: Document, op: Operation, limits: Limits)
    requires ReadyToMove(d.nodes) && Draft(d, op, limits).Applied?
    ensures var r := Draft(d, op, limits); FocusTracked(d, r.doc, op, r.eff)
  {
    hide NormalizeProps;
    hide UpsertExisting;
    hide UpsertFresh;
    hide PatchProps;
    hide AppendText;
    hide IsTree;
    match op.op {
      case OpUpsert =>
        var a := NormalizeProps(op.kind, op.props, true);
        if op.id in d.nodes {
          ExistingFocus(d, op, a.props, a.force, limits);
        } else {
          FreshFocus(d, op, a.props, a.force, limits);
        }
      case OpProps => PatchFocus(d, op, limits);
      case OpText => TextFocus(d, op, limits);
      case OpRemove =>
      case OpFocus =>
      case OpCommit =>
      case OpOther =>
    }
  }

  lemma ExistingFocus(d: Document, op: Operation, props: Props, force: bool, limits: Limits)
    requires ReadyToMove(d.nodes) && op.id in d.nodes && op.id != ROOT
    requires UpsertExisting(d, op, props, force, limits).Applied?
    ensures var r := UpsertExisting(d, op, props, force, limits);
      r.eff.typeChanged ==> op.id in r.doc.nodes && r.doc.nodes[op.id].kind != d.nodes[op.id].kind
  {
    hide IsTree;
    hide Subtree;
    hide TableLimits;
    hide MoveNode;
    hide Marks;
  }

  lemma FreshFocus(d: Document, op: Operation, props: Props, force: bool, limits: Limits)
    requires op.id !in d.nodes && UpsertFresh(d, op, props, force, limits).Applied?
    ensures !UpsertFresh(d, op, props, force, limits).eff.typeChanged
  {
    hide TableLimits;
    hide InsertChild;
    hide Marks;
  }

  lemma PatchFocus(d: Document, op: Operation, limits: Limits)
    requires PatchProps(d, op, limits).Applied?
    ensures !PatchProps(d, op, limits).eff.typeChanged
  {
    hide TableLimits;
    hide MergeNormalized;
    hide Marks;
    hide ExplicitKeys;
  }

  lemma TextFocus(d: Document, op: Operation, limits: Limits)
    requires AppendText(d, op, limits).Applied?
    ensures var r := AppendText(d, op, limits);
      && !r.eff.typeChanged
      && forall x :: x in d.nodes ==>
           x in r.doc.nodes && r.doc.nodes[x].kind == d.nodes[x].kind && r.doc.nodes[x].props == d.nodes[x].props
  {
  }

  lemma ApplyFocus(d: Document, op: Operation, limits: Limits)
    requires ReadyToMove(d.nodes) && Apply(d, op, limits).Applied?
    ensures var r := Apply(d, op, limits); FocusTracked(d, r.doc, op, r.eff)
  {
    hide *;
    if ValidateOperation(op, limits).Some? {
      InvalidRefused(d, op, limits);
    } else {
      Preservation.ApplyCases(d, op, limits);
      DraftFocus(d, op, limits);
      SameTracked(d, Draft(d, op, limits).doc, Apply(d, op, limits).doc, op, Apply(d, op, limits).eff);
    }
  }

  lemma SameTracked(prev: Document, draft: Document, next: Document, op: Operation, eff: Effect)
    requires FocusTracked(prev, draft, op, eff) && next.nodes == draft.nodes
    ensures FocusTracked(prev, next, op, eff)
  {
  }

  /** The node is still there, of the same type, and can hold the focus. */
  predicate KeepsFocus(prev: Nodes, next: Nodes, f: Id) {
    f in prev && f in next && next[f].kind == prev[f].kind && Focusable(next[f])
  }

  lemma NextFocusIs(f: Id, prev: Document, next: Document, op: Operation, eff: Effect)
    requires IsTree(next.nodes) && op.op != OpFocus && (f == "" || (f in prev.nodes && Focusable(prev.nodes[f])))
    requires NO_PARENT !in next.nodes && KindsTracked(prev, next, op, eff) && FocusTracked(prev, next, op, eff)
    ensures NextFocus(f, next.nodes, op, eff) ==
      if f == "" then "" else if KeepsFocus(prev.nodes, next.nodes, f) then f else FirstStop(next.nodes)
  {
    hide IsTree;
    hide FirstStop;
  }

  lemma ReconcileFocus(s: Projection, prev: Document, next: Document, op: Operation, eff: Effect)
    requires IsTree(next.nodes) && Reconcile(s, prev, next, op, eff).Updated?
    ensures Reconcile(s, prev, next, op, eff).state.focusedId == NextFocus(s.focusedId, next.nodes, op, eff)
  {
    hide IsTree;
    hide Bindings.BuildBindings;
    hide NextInputs;
    hide NextFocus;
    hide Selections.ReselectAll;
  }

  lemma FocusedNode(s: Projection, d: Document)
    requires Consistent(s, d)
    ensures s.focusedId == "" || (s.focusedId in d.nodes && Focusable(d.nodes[s.focusedId]))
  {
    hide IsTree;
    hide Focusable;
  }

  lemma AdvancedParts(e: EngineState, next: Document, s: Projection, eff: Effect, c: Commit)
    ensures Advanced(e, next, s, eff, c).state == s && Advanced(e, next, s, eff, c).doc == next
  {
  }

  /**
   After every accepted operation but `focus`, of whatever kind: the focus stays where its node
   survives with its type and can still hold it; otherwise it goes to the first focusable node of the
   new document in tree preorder, or to nothing. It never appears from nothing.
   */
  lemma FocusAfter(e: EngineState, op: Operation, over: Code)
    requires EngineOk(e) && op.op != OpFocus
    ensures var (after, reply) := ApplyOp(e, op, over);
      reply.Fine? ==>
        && IsTree(after.doc.nodes)
        && var f, order := e.state.focusedId, FocusOrder(after.doc.nodes);
           after.state.focusedId ==
             if f == "" then "" else if KeepsFocus(e.doc.nodes, after.doc.nodes, f) then f
             else if order == [] then "" else order[0]
  {
    hide *;
    AllOk(e);
    OkDocument(e.doc, e.state, e.limits);
    FocusedNode(e.state, e.doc);
    Engines.ApplyCases(e, op, over);
    var out := Apply(e.doc, op, e.limits);
    match out {
      case Failed(code) => EmitErrorOk(e, op, code);
      case OverLimits => EmitErrorOk(e, op, over);
      case Crashed =>
      case Applied(next, eff) =>
        InstallCases(e, op, next, eff);
        EmitErrorOk(e, op, Backpressure);
        var r := Reconcile(e.state, e.doc, next, op, eff);
        if r.Denied? {
          EmitErrorOk(e, op, r.code);
        } else {
          ReadyTree(next.nodes);
          ApplyFocus(e.doc, op, e.limits);
          ReconcileFocus(e.state, e.doc, next, op, eff);
          NextFocusIs(e.state.focusedId, e.doc, next, op, eff);
          AdvancedParts(e, next, r.state, eff, Commit(Max0(op.opSeq), op.frame));
          FirstOfOrder(next.nodes);
        }
    }
  }

  lemma FirstOfOrder(nodes: Nodes)
    requires IsTree(nodes)
    ensures FirstStop(nodes) == if FocusOrder(nodes) == [] then "" else FocusOrder(nodes)[0]
  {
    hide IsTree;
    hide FocusOrder;
  }
}

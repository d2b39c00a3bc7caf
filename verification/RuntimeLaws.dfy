/** What a renderer sees after an accepted operation and after its own calls: values, selections, focus, counters. */
module RuntimeLaws {
  import opened Forests
  import opened Protocol
  import opened Documents
  import opened Reducer
  import opened Preservation
  import opened Focus
  import opened Selections
  import opened Projections
  import opened ProjectionLaws
  import opened FocusLaws
  import opened Broker
  import opened Engines
  import opened EngineLaws
  import DocumentLaws
  import Bindings

  // ---- what an operation installs ----

  /** The operation asks for its target's default value. */
  predicate Forces(op: Operation) {
    && (op.op == OpUpsert || op.op == OpProps)
    && op.props.Fields? && "force" in op.props.fields && BoolOf(op.props.fields["force"].json)
  }

  /** Only a forcing operation forces an input, and only a commit is one. */
  ghost predicate Told(d: Document, next: Document, op: Operation, eff: Effect) {
    && (op.id in d.nodes && d.nodes[op.id].kind.Input? && op.id in next.nodes && next.nodes[op.id].kind.Input?
        ==> (eff.force <==> Forces(op)))
    && (eff.commit <==> op.op == OpCommit)
  }

  lemma NormalizedForce(t: NodeType, raw: PropsArg, full: bool)
    requires NormalizeProps(t, raw, full).Accepted? && t.Input?
    ensures NormalizeProps(t, raw, full).force <==>
      raw.Fields? && "force" in raw.fields && BoolOf(raw.fields["force"].json)
  {
    hide ValidNormalized;
    hide Defaults;
  }

  lemma MergedForce(t: NodeType, current: Props, raw: PropsArg)
    requires MergeNormalized(t, current, raw).Accepted? && t.Input?
    ensures MergeNormalized(t, current, raw).force <==>
      raw.Fields? && "force" in raw.fields && BoolOf(raw.fields["force"].json)
  {
    if NormalizeProps(t, raw, false).Accepted? { NormalizedForce(t, raw, false); }
    hide NormalizeProps;
    hide ValidNormalized;
  }

  lemma StoredForce(d: Document, op: Operation, props: Props, force: bool, limits: Limits)
    requires ReadyToMove(d.nodes) && op.id in d.nodes && op.id != ROOT
    requires UpsertExisting(d, op, props, force, limits).Applied?
    ensures var r := UpsertExisting(d, op, props, force, limits);
      r.eff.force == force && !r.eff.commit && op.id in r.doc.nodes && r.doc.nodes[op.id].kind == op.kind
  {
    hide IsTree;
    hide Subtree;
    hide TableLimits;
    hide MoveNode;
    hide Marks;
  }

  lemma FreshForce(d: Document, op: Operation, props: Props, force: bool, limits: Limits)
    requires op.id !in d.nodes && UpsertFresh(d, op, props, force, limits).Applied?
    ensures !UpsertFresh(d, op, props, force, limits).eff.commit
  {
    hide TableLimits;
    hide InsertChild;
    hide Marks;
  }

  lemma PatchForce(d: Document, op: Operation, limits: Limits)
    requires PatchProps(d, op, limits).Applied?
    ensures op.id in d.nodes
    ensures var r := PatchProps(d, op, limits);
      var a := MergeNormalized(d.nodes[op.id].kind, d.nodes[op.id].props, op.props);
      a.Accepted? && r.eff.force == a.force && !r.eff.commit
  {
    hide TableLimits;
    hide MergeNormalized;
    hide Marks;
    hide ExplicitKeys;
  }

  lemma DraftTold(d: Document, op: Operation, limits: Limits)
    requires ReadyToMove(d.nodes) && Draft(d, op, limits).Applied?
    ensures Told(d, Draft(d, op, limits).doc, op, Draft(d, op, limits).eff)
  {
    hide NormalizeProps;
    hide UpsertExisting;
    hide UpsertFresh;
    hide PatchProps;
    hide IsTree;
    match op.op {
      case OpUpsert =>
        var a := NormalizeProps(op.kind, op.props, true);
        if op.id in d.nodes {
          StoredForce(d, op, a.props, a.force, limits);
          if op.kind.Input? { NormalizedForce(op.kind, op.props, true); }
        } else {
          FreshForce(d, op, a.props, a.force, limits);
        }
      case OpProps =>
        PatchForce(d, op, limits);
        if d.nodes[op.id].kind.Input? { MergedForce(d.nodes[op.id].kind, d.nodes[op.id].props, op.props); }
      case OpText =>
      case OpRemove =>
      case OpFocus =>
      case OpCommit =>
      case OpOther =>
    }
  }

  lemma SameTold(d: Document, draft: Document, next: Document, op: Operation, eff: Effect)
    requires Told(d, draft, op, eff) && next.nodes == draft.nodes
    ensures Told(d, next, op, eff)
  {
    hide Forces;
  }

  lemma ApplyTold(d: Document, op: Operation, limits: Limits)
    requires ReadyToMove(d.nodes) && Apply(d, op, limits).Applied?
    ensures var r := Apply(d, op, limits); Told(d, r.doc, op, r.eff)
  {
    hide *;
    if ValidateOperation(op, limits).Some? {
      DocumentLaws.InvalidRefused(d, op, limits);
    } else {
      Preservation.ApplyCases(d, op, limits);
      DraftTold(d, op, limits);
      SameTold(d, Draft(d, op, limits).doc, Apply(d, op, limits).doc, op, Apply(d, op, limits).eff);
    }
  }

  /** What an accepted operation did: the reducer's result, reconciled. */
  lemma Accepted(e: EngineState, op: Operation, over: Code)
    requires EngineOk(e) && ApplyOp(e, op, over).1.Fine?
    ensures Consistent(e.state, e.doc) && ReadyToMove(e.doc.nodes) && Apply(e.doc, op, e.limits).Applied?
    ensures var next, eff := Apply(e.doc, op, e.limits).doc, Apply(e.doc, op, e.limits).eff;
      && IsTree(next.nodes) && KindsTracked(e.doc, next, op, eff) && FocusTracked(e.doc, next, op, eff)
      && Told(e.doc, next, op, eff)
      && var r := Reconcile(e.state, e.doc, next, op, eff);
         && r.Updated?
         && ApplyOp(e, op, over).0 == Advanced(e, next, r.state, eff, Commit(Max0(op.opSeq), op.frame))
  {
    hide *;
    AllOk(e);
    OkDocument(e.doc, e.state, e.limits);
    Engines.ApplyCases(e, op, over);
    match Apply(e.doc, op, e.limits) {
      case Failed(code) => EmitErrorOk(e, op, code);
      case OverLimits => EmitErrorOk(e, op, over);
      case Crashed =>
      case Applied(next, eff) =>
        InstallCases(e, op, next, eff);
        EmitErrorOk(e, op, Backpressure);
        ApplyFocus(e.doc, op, e.limits);
        ApplyTold(e.doc, op, e.limits);
        var r := Reconcile(e.state, e.doc, next, op, eff);
        if r.Denied? { EmitErrorOk(e, op, r.code); }
    }
  }

  lemma AdvancedIs(e: EngineState, next: Document, s: Projection, eff: Effect, c: Commit)
    ensures var after := Advanced(e, next, s, eff, c);
      && after.doc == next && after.state == s && after.broker == e.broker && after.limits == e.limits
      && after.pending == (if eff.commit then e.pending + [c] else e.pending)
      && after.token ==
           e.token + if s.publicationGeneration != e.state.publicationGeneration || eff.commit then 1 else 0
  {
  }

  // ---- input values ----

  /** The value an input's own properties give it. */
  function OwnValue(n: Node): string { StringOf(PropJson(n.props, "value")) }

  lemma NextInputAt(s: Projection, prev: Document, next: Document, op: Operation, eff: Effect, x: Id)
    requires InputsFit(prev.nodes, s.inputs) && KindsTracked(prev, next, op, eff)
    requires FocusTracked(prev, next, op, eff) && Told(prev, next, op, eff)
    requires x in next.nodes && next.nodes[x].kind.Input?
    ensures var inputs := NextInputs(s, prev.nodes, next.nodes, op, eff);
      var was := x in prev.nodes && prev.nodes[x].kind.Input?;
      && x in inputs && (was ==> x in s.inputs)
      && inputs[x] == if !was || (x == op.id && Forces(op)) then OwnValue(next.nodes[x]) else s.inputs[x]
  {
    hide Forces;
  }

  /**
   After every accepted operation an input that is new, or was no input before, or is the target of a
   forcing operation shows the value its properties give; every other input keeps what it showed.
   */
  lemma InputsAfter(e: EngineState, op: Operation, over: Code, x: Id)
    requires EngineOk(e) && ApplyOp(e, op, over).1.Fine?
    requires x in ApplyOp(e, op, over).0.doc.nodes && ApplyOp(e, op, over).0.doc.nodes[x].kind.Input?
    ensures var after := ApplyOp(e, op, over).0;
      var was := x in e.doc.nodes && e.doc.nodes[x].kind.Input?;
      && x in after.state.inputs && (was ==> x in e.state.inputs)
      && after.state.inputs[x] ==
           if !was || (x == op.id && Forces(op)) then StringOf(PropJson(after.doc.nodes[x].props, "value"))
           else e.state.inputs[x]
  {
    hide *;
    Accepted(e, op, over);
    var next, eff := Apply(e.doc, op, e.limits).doc, Apply(e.doc, op, e.limits).eff;
    ConsistentIs(e.state, e.doc);
    ReconcileCases(e.state, e.doc, next, op, eff);
    var r := Reconcile(e.state, e.doc, next, op, eff);
    AdvancedIs(e, next, r.state, eff, Commit(Max0(op.opSeq), op.frame));
    NextInputAt(e.state, e.doc, next, op, eff, x);
    OwnValueIs(next.nodes[x]);
  }

  lemma OwnValueIs(n: Node)
    ensures OwnValue(n) == StringOf(PropJson(n.props, "value"))
  {
  }

  // ---- selections ----

  /** The row a remembered selection points to: its own while its identifier is there, else the nearest place. */
  predicate Followed(n: Node, s: Selection, now: Selection)
    requires TableRows(n.props) > 0
  {
    var rows, ids := TableRows(n.props), RowIds(n);
    if s.rowId != "" && |ids| == rows && s.rowId in ids
    then now.rowId == s.rowId && 0 <= now.index < |ids| && ids[now.index] == s.rowId
    else now.index == if s.index < 0 then 0 else if s.index < rows then s.index else rows - 1
  }

  lemma ReselectedAt(nodes: Nodes, m: SelectionMap, x: Id)
    requires x in nodes && HoldsSelection(nodes[x])
    ensures var all := ReselectAll(nodes, m);
      && x in all && Fits(nodes[x], all[x])
      && (if x in m then Followed(nodes[x], m[x], all[x]) else all[x].index == 0)
  {
    if x in m { SelectionFollowsRow(nodes[x], m[x]); }
    hide RowIds;
    hide TableRows;
  }

  /**
   After every accepted operation each selectable table with rows has a row selected: the remembered
   one, wherever it went, or its old place, or the first row of a table that had none selected.
   */
  lemma SelectionsAfter(e: EngineState, op: Operation, over: Code, x: Id)
    requires EngineOk(e) && ApplyOp(e, op, over).1.Fine?
    requires x in ApplyOp(e, op, over).0.doc.nodes && HoldsSelection(ApplyOp(e, op, over).0.doc.nodes[x])
    ensures var after := ApplyOp(e, op, over).0;
      var n := after.doc.nodes[x];
      && x in after.state.selections && TableRows(n.props) > 0 && Fits(n, after.state.selections[x])
      && if x in e.state.selections then Followed(n, e.state.selections[x], after.state.selections[x])
         else after.state.selections[x].index == 0
  {
    hide *;
    Accepted(e, op, over);
    var next, eff := Apply(e.doc, op, e.limits).doc, Apply(e.doc, op, e.limits).eff;
    ReconcileCases(e.state, e.doc, next, op, eff);
    var r := Reconcile(e.state, e.doc, next, op, eff);
    AdvancedIs(e, next, r.state, eff, Commit(Max0(op.opSeq), op.frame));
    ReselectedAt(next.nodes, e.state.selections, x);
    HolderRows(next.nodes[x]);
  }

  lemma HolderRows(n: Node)
    requires HoldsSelection(n)
    ensures TableRows(n.props) > 0
  {
    hide TableRows;
  }

  // ---- counters ----

  /** Nothing a renderer draws differs. */
  predicate SamePicture(e: EngineState, e': EngineState) {
    && e'.doc == e.doc && e'.state.focusedId == e.state.focusedId && e'.state.inputs == e.state.inputs
    && e'.state.selections == e.state.selections && e'.state.bindings == e.state.bindings
  }

  lemma SteppedExactly(s: Projection, prev: Document, next: Document, op: Operation, eff: Effect, r: Projection)
    requires KindsTracked(prev, next, op, eff)
    requires r == Stepped(s, next, eff, r.focusedId, r.inputs, r.selections, r.bindings)
    ensures var same := next == prev && r.focusedId == s.focusedId && r.inputs == s.inputs
                        && r.selections == s.selections && r.bindings == s.bindings;
      var step := if same then 0 else 1;
      && r.renderGeneration == s.renderGeneration + step
      && r.publicationGeneration == s.publicationGeneration + step
  {
  }

  /**
   An accepted operation takes a new token exactly when something drawn changed or it is a commit, asks
   for a redraw exactly when something drawn changed, and adds exactly its own commit to those waiting.
   */
  lemma CountersAfter(e: EngineState, op: Operation, over: Code)
    requires EngineOk(e) && ApplyOp(e, op, over).1.Fine?
    ensures var after := ApplyOp(e, op, over).0;
      && after.token == e.token + (if SamePicture(e, after) && op.op != OpCommit then 0 else 1)
      && after.state.renderGeneration == e.state.renderGeneration + (if SamePicture(e, after) then 0 else 1)
      && after.pending == (if op.op == OpCommit then e.pending + [Commit(Max0(op.opSeq), op.frame)] else e.pending)
      && after.broker == e.broker
  {
    hide *;
    Accepted(e, op, over);
    var next, eff := Apply(e.doc, op, e.limits).doc, Apply(e.doc, op, e.limits).eff;
    ReconcileCases(e.state, e.doc, next, op, eff);
    var r := Reconcile(e.state, e.doc, next, op, eff);
    AdvancedIs(e, next, r.state, eff, Commit(Max0(op.opSeq), op.frame));
    SteppedExactly(e.state, e.doc, next, op, eff, r.state);
    SamePictureIs(e, ApplyOp(e, op, over).0);
    ToldCommit(e.doc, next, op, eff);
  }

  lemma SamePictureIs(e: EngineState, e': EngineState)
    ensures SamePicture(e, e') <==>
      && e'.doc == e.doc && e'.state.focusedId == e.state.focusedId && e'.state.inputs == e.state.inputs
      && e'.state.selections == e.state.selections && e'.state.bindings == e.state.bindings
  {
  }

  lemma ToldCommit(d: Document, next: Document, op: Operation, eff: Effect)
    requires Told(d, next, op, eff)
    ensures eff.commit <==> op.op == OpCommit
  {
    hide Forces;
  }

  /** A `focus` operation is accepted exactly on a node that can hold the focus, and then it does. */
  lemma FocusOperation(e: EngineState, op: Operation, over: Code)
    requires EngineOk(e) && op.op == OpFocus && ValidateOperation(op, e.limits).None?
    ensures var (after, reply) := ApplyOp(e, op, over);
      && (reply.Fine? <==> op.id in e.doc.nodes && Focusable(e.doc.nodes[op.id]))
      && (reply.Fine? ==>
            && after.doc == e.doc && after.state.focusedId == op.id && after.state.inputs == e.state.inputs
            && after.state.bindings == e.state.bindings)
  {
    hide *;
    AllOk(e);
    OkDocument(e.doc, e.state, e.limits);
    ConsistentIs(e.state, e.doc);
    Engines.ApplyCases(e, op, over);
    FocusDraft(e.doc, op, e.limits);
    if op.id in e.doc.nodes {
      var eff := Apply(e.doc, op, e.limits).eff;
      InstallCases(e, op, e.doc, eff);
      var r := Reconcile(e.state, e.doc, e.doc, op, eff);
      FocusReconciled(e.state, e.doc, op, eff);
      if r.Denied? { EmitErrorOk(e, op, r.code); } else {
        AdvancedIs(e, e.doc, r.state, eff, Commit(Max0(op.opSeq), op.frame));
        KeepsInputs(e.state, e.doc, op, eff);
      }
    } else {
      EmitErrorOk(e, op, Apply(e.doc, op, e.limits).code);
    }
  }

  lemma FocusDraft(d: Document, op: Operation, limits: Limits)
    requires ReadyToMove(d.nodes) && op.op == OpFocus && ValidateOperation(op, limits).None?
    ensures op.id in d.nodes ==> Apply(d, op, limits) == Applied(d, Effect(false, false, [], false, false))
    ensures op.id !in d.nodes ==> Apply(d, op, limits).Failed?
  {
    hide IsTree;
    hide ValidateOperation;
  }

  lemma FocusReconciled(s: Projection, d: Document, op: Operation, eff: Effect)
    requires IsTree(d.nodes) && op.op == OpFocus && op.id in d.nodes
    requires Bindings.BuildBindings(d.nodes) == Bindings.Indexed(s.bindings)
    ensures var r := Reconcile(s, d, d, op, eff);
      && (r.Updated? <==> Focusable(d.nodes[op.id]))
      && (r.Updated? ==>
            && r.state.focusedId == op.id && r.state.bindings == s.bindings
            && r.state.inputs == NextInputs(s, d.nodes, d.nodes, op, eff))
  {
    hide IsTree;
    hide Bindings.BuildBindings;
    hide NextInputs;
    hide ReselectAll;
    hide Focusable;
  }

  lemma KeepsInputs(s: Projection, d: Document, op: Operation, eff: Effect)
    requires InputsFit(d.nodes, s.inputs) && eff == Effect(false, eff.commit, [], false, false)
    ensures NextInputs(s, d.nodes, d.nodes, op, eff) == s.inputs
  {
    assert KeptInputs(s, op, eff) == s.inputs;
    hide InputDefault;
  }

  lemma CommitDraft(d: Document, op: Operation, limits: Limits)
    requires ReadyToMove(d.nodes) && op.op == OpCommit && ValidateOperation(op, limits).None?
    ensures Apply(d, op, limits) == Applied(d, Effect(false, true, [], false, false))
  {
    hide IsTree;
    hide ValidateOperation;
  }

  /** A commit is accepted exactly when not too many wait already; it changes nothing that is drawn. */
  lemma CommitExactly(e: EngineState, op: Operation, over: Code)
    requires EngineOk(e) && op.op == OpCommit && ValidateOperation(op, e.limits).None?
    ensures var (after, reply) := ApplyOp(e, op, over);
      && (reply.Fine? <==> |e.pending| < e.maxPending)
      && (reply.Fine? ==> SamePicture(e, after))
      && (!reply.Fine? ==> reply == Error(Backpressure))
  {
    hide *;
    AllOk(e);
    OkDocument(e.doc, e.state, e.limits);
    ConsistentIs(e.state, e.doc);
    Engines.ApplyCases(e, op, over);
    CommitDraft(e.doc, op, e.limits);
    var eff := Apply(e.doc, op, e.limits).eff;
    InstallCases(e, op, e.doc, eff);
    EmitErrorOk(e, op, Backpressure);
    var r := Reconcile(e.state, e.doc, e.doc, op, eff);
    CommitKeeps(e, op, eff);
    AdvancedIs(e, e.doc, r.state, eff, Commit(Max0(op.opSeq), op.frame));
    SamePictureIs(e, ApplyOp(e, op, over).0);
  }

  lemma CommitKeeps(e: EngineState, op: Operation, eff: Effect)
    requires EngineOk(e) && IsTree(e.doc.nodes) && op.op == OpCommit && eff == Effect(false, true, [], false, false)
    ensures var r := Reconcile(e.state, e.doc, e.doc, op, eff);
      && r.Updated?
      && r.state.focusedId == e.state.focusedId && r.state.inputs == e.state.inputs
      && r.state.selections == e.state.selections && r.state.bindings == e.state.bindings
  {
    hide *;
    AllOk(e);
    OkDocument(e.doc, e.state, e.limits);
    ConsistentIs(e.state, e.doc);
    SoundReady(e.doc, e.limits);
    IntactKept(e.doc, e.limits);
    KeepsInputs(e.state, e.doc, op, eff);
    SameSelections(e.doc, e.doc.nodes, e.state.selections, e.limits);
    CommitIs(op);
    PlainEffect(eff);
    SameFocus(e.state.focusedId, e.doc.nodes, e.doc.nodes, op, eff);
    ReconcileSame(e.state, e.doc, e.doc, op, eff);
  }

  lemma CommitIs(op: Operation)
    requires op.op == OpCommit
    ensures op.op != OpFocus
  {
  }

  lemma PlainEffect(eff: Effect)
    requires eff == Effect(false, true, [], false, false)
    ensures eff.removed == [] && !eff.typeChanged
  {
  }

  /** A limit that was configured is in force, and one that was not has its default. */
  predicate InForce(configured: int, default: int, limit: int) {
    if configured >= 1 then limit == configured else limit == default
  }

  /** A new engine keeps the configured limits, and room for as many commits as the events and the limit allow. */
  lemma ConfiguredLimits(configured: Limits, requested: int)
    ensures var e, d := NewEngine(configured, requested), DEFAULT_LIMITS;
      && InForce(configured.maxMessageBytes, d.maxMessageBytes, e.limits.maxMessageBytes)
      && InForce(configured.maxDocumentBytes, d.maxDocumentBytes, e.limits.maxDocumentBytes)
      && InForce(configured.maxNodes, d.maxNodes, e.limits.maxNodes)
      && InForce(configured.maxDepth, d.maxDepth, e.limits.maxDepth)
      && InForce(configured.maxChildren, d.maxChildren, e.limits.maxChildren)
      && InForce(configured.maxTextBytesPerNode, d.maxTextBytesPerNode, e.limits.maxTextBytesPerNode)
      && InForce(configured.maxTotalTextBytes, d.maxTotalTextBytes, e.limits.maxTotalTextBytes)
      && InForce(configured.maxTableRows, d.maxTableRows, e.limits.maxTableRows)
      && InForce(configured.maxTableColumns, d.maxTableColumns, e.limits.maxTableColumns)
      && InForce(configured.maxPendingEvents, d.maxPendingEvents, e.limits.maxPendingEvents)
      && InForce(configured.maxPendingMutations, d.maxPendingMutations, e.limits.maxPendingMutations)
      && e.broker.cap == (if 1 <= requested <= e.limits.maxPendingEvents then requested else e.limits.maxPendingEvents)
      && e.maxPending <= e.broker.cap && e.maxPending <= e.limits.maxPendingMutations
      && (e.maxPending == e.broker.cap || e.maxPending == e.limits.maxPendingMutations)
  {
  }

  // ---- a renderer's own calls ----

  /** Only the projection changed: `s` in the place of the old one. */
  lemma LocalReply(e: EngineState, c: Engines.Call)
    requires EngineOk(e) && IsLocal(c)
    ensures var (after, reply) := Engines.Step(e, c);
      && EngineOk(after)
      && (reply.Fine? <==> Interacted(e, c).Updated?)
      && (if reply.Fine? then after == e.(state := Interacted(e, c).state) else after == e && reply.Error?)
  {
    hide *;
    LocalIs(e, c);
    LocalOk(e, c);
  }

  lemma TypedIs(e: EngineState, x: Id, value: string)
    requires InputsFit(e.doc.nodes, e.state.inputs)
    ensures var r := Interacted(e, SetInput(x, value));
      && (r.Updated? <==> x in e.doc.nodes && e.doc.nodes[x].kind.Input?)
      && (r.Updated? ==>
            && x in e.state.inputs
            && r.state == e.state.(inputs := e.state.inputs[x := value],
                 renderGeneration := e.state.renderGeneration + if e.state.inputs[x] == value then 0 else 1))
  {
    assert x in e.state.inputs && e.state.inputs[x] == value ==> e.state.inputs[x := value] == e.state.inputs;
  }

  /**
   Typing is accepted exactly on inputs; the renderer then sees the typed value there and nothing else
   changed, with a redraw if it is a new one; and submitting sends the agent this very value.
   */
  lemma TypedThenSubmitted(e: EngineState, x: Id, value: string)
    requires EngineOk(e)
    ensures var (typed, reply) := Engines.Step(e, SetInput(x, value));
      && EngineOk(typed)
      && (reply.Fine? <==> x in e.doc.nodes && e.doc.nodes[x].kind.Input?)
      && (!reply.Fine? ==> typed == e && reply.Error?)
      && (reply.Fine? ==>
            && x in e.state.inputs
            && Present(typed) == Present(e).(inputs := e.state.inputs[x := value],
                 renderGeneration := e.state.renderGeneration + if e.state.inputs[x] == value then 0 else 1)
            && var (sent, answer) := Engines.Step(typed, Submit(x));
               && (answer.Fine? <==> Depth(e.broker) < e.broker.cap)
               && (!answer.Fine? ==> sent == typed && answer == Error(Backpressure))
               && (answer.Fine? ==>
                 Payloads(sent.broker.critical) == Payloads(e.broker.critical)
                   + [BLANK.(ev := "submit", id := x, value := value,
                             action := StringOf(PropJson(e.doc.nodes[x].props, "action")))]))
  {
    hide *;
    AllOk(e);
    OkDocument(e.doc, e.state, e.limits);
    ConsistentIs(e.state, e.doc);
    var c := SetInput(x, value);
    ItIsLocal(c);
    LocalReply(e, c);
    TypedIs(e, x, value);
    var typed := Engines.Step(e, c).0;
    if Interacted(e, c).Updated? {
      PresentTyped(e, Interacted(e, c).state);
      ItIsLocal(Submit(x));
      SignalOk(typed, Submit(x));
      SubmittedIs(typed, x);
      var s := Signalled(typed, Submit(x));
      RaisedCases(typed, s);
      SendOk(typed, s.event);
      SendFits(typed, s.event);
      BlankPayload(x, value, StringOf(PropJson(e.doc.nodes[x].props, "action")));
    }
  }

  lemma SendFits(e: EngineState, ev: Event)
    ensures Send(e, ev).1.Fine? <==> Depth(e.broker) < e.broker.cap
  {
  }

  lemma PresentTyped(e: EngineState, s: Projection)
    requires s == e.state.(inputs := s.inputs, renderGeneration := s.renderGeneration)
    ensures Present(e.(state := s)) == Present(e).(inputs := s.inputs, renderGeneration := s.renderGeneration)
  {
  }

  lemma SubmittedIs(e: EngineState, x: Id)
    requires x in e.doc.nodes && e.doc.nodes[x].kind.Input? && x in e.state.inputs
    ensures Signalled(e, Submit(x)) ==
      Raise(BLANK.(ev := "submit", id := x, value := e.state.inputs[x],
                   action := StringOf(PropJson(e.doc.nodes[x].props, "action"))))
  {
    hide PropJson;
  }

  lemma BlankPayload(x: Id, value: string, action: string)
    ensures var ev := BLANK.(ev := "submit", id := x, value := value, action := action); Payload(ev) == ev
  {
  }

  lemma FocusedIs(e: EngineState, x: Id)
    ensures var r := Interacted(e, FocusOn(x));
      && (r.Updated? <==> x in e.doc.nodes && Focusable(e.doc.nodes[x]))
      && (r.Updated? ==>
            r.state == e.state.(focusedId := x,
              renderGeneration := e.state.renderGeneration + if e.state.focusedId == x then 0 else 1))
  {
    hide Focusable;
  }

  lemma PresentFocused(e: EngineState, s: Projection)
    requires s == e.state.(focusedId := s.focusedId, renderGeneration := s.renderGeneration)
    ensures Present(e.(state := s)) == Present(e).(focusedId := s.focusedId, renderGeneration := s.renderGeneration)
  {
  }

  /** Focusing is accepted exactly on a node that can hold the focus, which the renderer then sees there. */
  lemma FocusedThenPresented(e: EngineState, x: Id)
    requires EngineOk(e)
    ensures var (after, reply) := Engines.Step(e, FocusOn(x));
      && (reply.Fine? <==> x in e.doc.nodes && Focusable(e.doc.nodes[x]))
      && (!reply.Fine? ==> after == e && reply.Error?)
      && (reply.Fine? ==>
            Present(after) == Present(e).(focusedId := x,
              renderGeneration := e.state.renderGeneration + if e.state.focusedId == x then 0 else 1))
  {
    hide *;
    ItIsLocal(FocusOn(x));
    LocalReply(e, FocusOn(x));
    FocusedIs(e, x);
    if Interacted(e, FocusOn(x)).Updated? { PresentFocused(e, Interacted(e, FocusOn(x)).state); }
  }

  /** The row at `index`, or the nearest row there is. */
  predicate RowNear(n: Node, index: int, s: Selection) {
    var rows := TableRows(n.props);
    && Fits(n, s)
    && (0 <= index < rows ==> s.index == index)
    && (index < 0 ==> s.index == 0)
    && (index >= rows ==> s.index == rows - 1)
  }

  lemma SelectedIs(e: EngineState, x: Id, index: int)
    requires SelectionsFit(e.doc.nodes, e.state.selections)
    ensures var r := SelectRow(e.state, e.doc.nodes, x, index);
      && (r.Updated? <==> x in e.doc.nodes && Selectable(e.doc.nodes[x]))
      && (r.Updated? && TableRows(e.doc.nodes[x].props) == 0 ==> r.state == e.state)
      && (r.Updated? && TableRows(e.doc.nodes[x].props) > 0 ==>
            && x in e.state.selections && x in r.state.selections
            && RowNear(e.doc.nodes[x], index, r.state.selections[x])
            && r.state == e.state.(selections := e.state.selections[x := r.state.selections[x]],
                 renderGeneration := e.state.renderGeneration
                   + if r.state.selections[x] == e.state.selections[x] then 0 else 1))
  {
    hide RowIds;
    hide TableRows;
    hide BoolOf;
    var r := SelectRow(e.state, e.doc.nodes, x, index);
    if r.Updated? && x in e.state.selections {
      assert e.state.selections[x := e.state.selections[x]] == e.state.selections;
    }
  }

  lemma MovedIs(e: EngineState, x: Id, delta: int)
    requires SelectionsFit(e.doc.nodes, e.state.selections)
    ensures var n := if x in e.state.selections then e.state.selections[x].index else 0;
      var r := MoveRow(e.state, e.doc.nodes, x, delta);
      && (r.Updated? <==> SelectRow(e.state, e.doc.nodes, x, n + delta).Updated?)
      && (r.Updated? ==> r == SelectRow(e.state, e.doc.nodes, x, n + delta))
  {
    SelectedIs(e, x, if x in e.state.selections then e.state.selections[x].index + delta else delta);
    hide SelectRow;
    hide TableRows;
    hide BoolOf;
  }

  lemma PresentSelected(e: EngineState, s: Projection)
    requires s == e.state.(selections := s.selections, renderGeneration := s.renderGeneration)
    ensures Present(e.(state := s)) == Present(e).(selections := s.selections, renderGeneration := s.renderGeneration)
  {
  }

  /** The renderer sees the row near `index` selected and nothing else changed; a table without rows stays as it is. */
  ghost predicate Reselected(e: EngineState, after: EngineState, x: Id, index: int)
    requires x in e.doc.nodes
  {
    if TableRows(e.doc.nodes[x].props) == 0 then after == e
    else
      && x in e.state.selections && x in after.state.selections
      && RowNear(e.doc.nodes[x], index, after.state.selections[x])
      && Present(after) == Present(e).(selections := e.state.selections[x := after.state.selections[x]],
           renderGeneration := e.state.renderGeneration
             + if after.state.selections[x] == e.state.selections[x] then 0 else 1)
  }

  /** Selecting is accepted exactly on selectable tables, and selects the asked row or the nearest one. */
  lemma SelectedThenPresented(e: EngineState, x: Id, index: int)
    requires EngineOk(e)
    ensures var (after, reply) := Engines.Step(e, SelectAt(x, index));
      && (reply.Fine? <==> x in e.doc.nodes && Selectable(e.doc.nodes[x]))
      && (!reply.Fine? ==> after == e && reply.Error?)
      && (reply.Fine? ==> Reselected(e, after, x, index))
  {
    SelectAtIs(e, x, index);
    hide *;
    AllOk(e);
    OkDocument(e.doc, e.state, e.limits);
    ConsistentIs(e.state, e.doc);
    ItIsLocal(SelectAt(x, index));
    LocalReply(e, SelectAt(x, index));
    SelectedIs(e, x, index);
    if Interacted(e, SelectAt(x, index)).Updated? {
      ReselectedFrom(e, Interacted(e, SelectAt(x, index)).state, x, index);
    }
  }

  lemma SelectAtIs(e: EngineState, x: Id, n: int)
    ensures Interacted(e, SelectAt(x, n)) == SelectRow(e.state, e.doc.nodes, x, n)
    ensures Interacted(e, MoveBy(x, n)) == MoveRow(e.state, e.doc.nodes, x, n)
  {
    hide SelectRow;
    hide MoveRow;
  }

  lemma ReselectedFrom(e: EngineState, s: Projection, x: Id, index: int)
    requires x in e.doc.nodes
    requires TableRows(e.doc.nodes[x].props) == 0 ==> s == e.state
    requires TableRows(e.doc.nodes[x].props) > 0 ==>
      && x in e.state.selections && x in s.selections && RowNear(e.doc.nodes[x], index, s.selections[x])
      && s == e.state.(selections := e.state.selections[x := s.selections[x]],
           renderGeneration := e.state.renderGeneration + if s.selections[x] == e.state.selections[x] then 0 else 1)
    ensures Reselected(e, e.(state := s), x, index)
  {
    hide RowNear;
    hide TableRows;
    if TableRows(e.doc.nodes[x].props) > 0 { PresentSelected(e, s); }
  }

  /** Moving selects the row that many places on from the selected one, or the last one on the way. */
  lemma MovedByDelta(e: EngineState, x: Id, delta: int)
    requires EngineOk(e)
    ensures var (after, reply) := Engines.Step(e, MoveBy(x, delta));
      && (reply.Fine? <==> x in e.doc.nodes && Selectable(e.doc.nodes[x]))
      && (!reply.Fine? ==> after == e && reply.Error?)
      && (reply.Fine? ==>
            Reselected(e, after, x, (if x in e.state.selections then e.state.selections[x].index else 0) + delta))
  {
    hide *;
    AllOk(e);
    OkDocument(e.doc, e.state, e.limits);
    ConsistentIs(e.state, e.doc);
    ItIsLocal(MoveBy(x, delta));
    LocalReply(e, MoveBy(x, delta));
    SelectAtIs(e, x, delta);
    MovedIs(e, x, delta);
    var index := (if x in e.state.selections then e.state.selections[x].index else 0) + delta;
    SelectedIs(e, x, index);
    if Interacted(e, MoveBy(x, delta)).Updated? {
      ReselectedFrom(e, Interacted(e, MoveBy(x, delta)).state, x, index);
    }
  }
}

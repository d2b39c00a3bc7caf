/** engine/engine.go as it runs: an object whose methods take one step each. */
module EngineMethods {
  import opened Forests
  import opened Protocol
  import opened Documents
  import opened Reducer
  import opened Focus
  import opened Selections
  import opened Projections
  import opened ProjectionLaws
  import opened Broker
  import opened Engines
  import opened States
  import Candidates
  import Preservation

  class Engine {
    var doc: Document
    const state: RuntimeState
    const broker: EventBroker
    const limits: Limits
    var pending: seq<Commit>
    const maxPending: nat
    var token: nat

    function Value(): EngineState
      reads this, state, broker
    {
      EngineState(doc, state.Value(), broker.Value(), pending, token, limits, maxPending)
    }

    constructor (configured: Limits, requested: int)
      ensures Value() == NewEngine(configured, requested)
      ensures fresh(state) && fresh(broker)
    {
      var lim := EffectiveLimits(configured);
      var capacity := requested;
      if capacity < 1 { capacity := lim.maxPendingEvents; }
      if capacity > lim.maxPendingEvents { capacity := lim.maxPendingEvents; }
      var most := lim.maxPendingMutations;
      if capacity < most { most := capacity; }
      var s := new RuntimeState(EMPTY);
      var b := new EventBroker(capacity);
      doc, state, broker, limits, pending, maxPending, token := NewDocument(), s, b, lim, [], most, 0;
    }

    method PresentationSnapshot() returns (v: View)
      ensures v == Present(Value())
    {
      v := View(doc, state.focusedId, state.inputs, state.selections, state.bindings, state.renderGeneration,
                token, state.publicationGeneration > state.publishedGeneration || |pending| > 0);
    }

    method EmitError(op: Operation, code: Code) returns (reply: Reply)
      modifies broker
      ensures (Value(), reply) == Engines.EmitError(old(Value()), op, code)
    {
      hide Enqueued;
      var seqNo := if op.opSeq < 0 then 0 else op.opSeq;
      var ev := BLANK.(ev := "error", code := Some(code), id := op.id, relatedSeq := seqNo);
      var err := broker.Enqueue(ev, Critical);
      if err.Some? { return Error(err.value); }
      reply := Error(code);
    }

    /** `over` is the limit the validator named. */
    method Apply(op: Operation) returns (reply: Reply, ghost over: Code)
      requires EngineOk(Value())
      modifies this, state, broker
      ensures (Value(), reply) == ApplyOp(old(Value()), op, over)
    {
      ghost var e := Value();
      assert e.doc == doc && e.limits == limits;
      hide *;
      DocumentFacts(e);
      var next, eff, verdict := Candidates.Apply(doc, op, limits);
      over := if verdict.Refused? then verdict.code else Backpressure;
      ApplyCases(e, op, over);
      AgreesCases(verdict, next, eff, Reducer.Apply(doc, op, limits));
      match verdict {
        case Panic => reply := Halted;
        case Refused(code) => reply := EmitError(op, code);
        case Done =>
          Preservation.ReadyTree(next.nodes);
          reply := Install(op, next, eff);
      }
    }

    /** The accepted candidate is reconciled with the projection and takes the document's place. */
    method Install(op: Operation, next: Document, eff: Effect) returns (reply: Reply)
      requires IsTree(next.nodes) && NO_PARENT !in next.nodes
      modifies this, state, broker
      ensures (Value(), reply) == Engines.Install(old(Value()), op, next, eff)
    {
      hide IsTree;
      hide Engines.Install;
      hide Engines.EmitError;
      hide Projections.Reconcile;
      ghost var e := Value();
      InstallCases(e, op, next, eff);
      var before := state.publicationGeneration;
      if eff.commit && |pending| >= maxPending {
        reply := EmitError(op, Backpressure);
        return;
      }
      var err := state.Reconcile(doc, next, op, eff);
      if err.Some? {
        reply := EmitError(op, err.value);
        return;
      }
      doc := next;
      if eff.commit {
        var seqNo := if op.opSeq < 0 then 0 else op.opSeq;
        pending := pending + [Commit(seqNo, op.frame)];
      }
      if state.publicationGeneration != before || eff.commit { token := token + 1; }
      reply := Fine;
    }

    method NeedsPublish() returns (needs: bool)
      ensures needs <==> NeedsShowing(Value())
    {
      needs := state.publicationGeneration > state.publishedGeneration || |pending| > 0;
    }

    method Publish() returns (reply: Reply)
      modifies this`pending, state, broker
      ensures (Value(), reply) == PublishAll(old(Value()))
    {
      var needs := NeedsPublish();
      if !needs { return Fine; }
      var revision := state.dirtyRevision;
      if revision < state.publishedRevision { revision := state.publishedRevision; }
      var events := [];
      for i := 0 to |pending|
        invariant events == Acknowledgements(pending[..i], revision)
      {
        events := events + [BLANK.(ev := "committed", revision := revision,
                                   throughSeq := pending[i].through, frame := pending[i].frame)];
      }
      assert pending[..|pending|] == pending;
      var err := broker.EnqueueCriticalBatch(events);
      if err.Some? { return Error(err.value); }
      state.Publish();
      pending := [];
      reply := Fine;
    }

    method PublishGeneration(generation: nat) returns (reply: Reply)
      modifies this`pending, state, broker
      ensures (Value(), reply) == Acknowledge(old(Value()), generation)
    {
      var needs := NeedsPublish();
      if generation != token || !needs { return Fine; }
      reply := Publish();
      if reply == Fine { reply := Shown; }
    }

    method NextEvent() returns (reply: Reply)
      requires Bounded(broker.Value())
      modifies broker
      ensures (Value(), reply) == Handed(old(Value()))
    {
      var ev := broker.NextEvent();
      hide Next;
      reply := if ev.Some? then Sent(ev.value) else Fine;
    }

    method SetInput(id: Id, value: string) returns (reply: Reply)
      modifies state
      ensures (Value(), reply) == Local(old(Value()), Typed(old(Value()), id, value))
    {
      if id !in doc.nodes { return Error(NodeNotFound); }
      if !doc.nodes[id].kind.Input? { return Error(NotInput); }
      var _ := state.SetInputValue(id, value);
      hide SetInputValue;
      reply := Fine;
    }

    method SetTableSelection(id: Id, index: int) returns (reply: Reply)
      modifies state
      ensures (Value(), reply) == Local(old(Value()), SelectRow(old(Value()).state, doc.nodes, id, index))
    {
      hide SelectRow;
      var err := state.SetTableSelection(doc, id, index);
      reply := if err.Some? then Error(err.value) else Fine;
    }

    method MoveTableSelection(id: Id, delta: int) returns (reply: Reply)
      modifies state
      ensures (Value(), reply) == Local(old(Value()), MoveRow(old(Value()).state, doc.nodes, id, delta))
    {
      hide MoveRow;
      var err := state.MoveTableSelection(doc, id, delta);
      reply := if err.Some? then Error(err.value) else Fine;
    }

    method Focus(id: Id) returns (reply: Reply)
      modifies state
      ensures (Value(), reply) == Local(old(Value()), SetLocalFocus(old(Value()).state, doc.nodes, id))
    {
      hide SetLocalFocus;
      var err := state.SetLocalFocus(doc, id);
      reply := if err.Some? then Error(err.value) else Fine;
    }

    method Raise(ev: Event) returns (reply: Reply)
      modifies broker
      ensures (Value(), reply) == Send(old(Value()), ev)
    {
      hide Enqueued;
      var err := broker.Enqueue(ev, Critical);
      reply := if err.Some? then Error(err.value) else Fine;
    }

    /** The action runs outside the lock; `outcome` is the event it ends with. */
    method HandleKey(key: string, outcome: Event) returns (reply: Reply)
      modifies broker
      ensures var reported := if key in old(state.bindings) then Some(outcome) else None;
        (Value(), reply) == Raised(old(Value()), Reported(reported))
    {
      hide Send;
      if key !in state.bindings { return Fine; }
      reply := Raise(outcome);
    }

    method ActivateTableSelection(id: Id) returns (reply: Reply)
      modifies broker
      ensures (Value(), reply) == Raised(old(Value()), Activated(old(Value()), id))
    {
      hide Send;
      if id !in doc.nodes { return Error(NodeNotFound); }
      var n := doc.nodes[id];
      if !n.kind.Table? { return Error(NotTable); }
      if !BoolOf(PropJson(n.props, "selectable")) { return Error(NotSelectable); }
      if id !in state.selections { return Fine; }
      var s := state.selections[id];
      reply := Raise(BLANK.(ev := "select", id := id, row := s.index, rowId := s.rowId,
                            action := StringOf(PropJson(n.props, "action"))));
    }

    method Submit(id: Id) returns (reply: Reply)
      modifies broker
      ensures (Value(), reply) == Raised(old(Value()), Submitted(old(Value()), id))
    {
      hide Send;
      if id !in doc.nodes { return Error(NodeNotFound); }
      var n := doc.nodes[id];
      if !n.kind.Input? { return Error(NotInput); }
      reply := Raise(BLANK.(ev := "submit", id := id, value := if id in state.inputs then state.inputs[id] else "",
                            action := StringOf(PropJson(n.props, "action"))));
    }
  }

  lemma DocumentFacts(e: EngineState)
    requires EngineOk(e)
    ensures ReadyToMove(e.doc.nodes) && Preservation.Intact(e.doc, e.limits) && 0 <= e.limits.maxTextBytesPerNode
  {
    hide *;
    AllOk(e);
    OkDocument(e.doc, e.state, e.limits);
    SoundReady(e.doc, e.limits);
  }

  lemma AgreesCases(verdict: Candidates.Verdict, doc: Document, eff: Effect, spec: Outcome)
    requires Candidates.Agrees(verdict, doc, eff, spec)
    ensures match verdict
      case Done => spec == Applied(doc, eff)
      case Refused(code) => spec == Failed(code) || spec == OverLimits
      case Panic => spec == Crashed
  {
  }
}

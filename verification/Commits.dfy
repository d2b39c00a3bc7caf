/**
 The ledger of commits over whole runs: every accepted commit is acknowledged exactly once and in
 order, or still waits.
 */
module Commits {
  import opened Sequences
  import opened Protocol
  import opened Documents
  import opened Reducer
  import opened Selections
  import opened Projections
  import opened ProjectionLaws
  import opened Broker
  import opened Engines
  import opened EngineLaws

  /** A commit together with the document revision at which it was accepted. */
  datatype Taken = Taken(commit: Commit, revision: nat)

  datatype Ack = Ack(through: nat, frame: string, revision: nat)

  /** What the outside has seen: commits accepted, events handed out. */
  datatype Ledger = Ledger(commits: seq<Taken>, handed: seq<Event>)

  const BLANK_LEDGER := Ledger([], [])

  /** The acknowledgements among some events. */
  function Acks(es: seq<Event>): seq<Ack> {
    if es == [] then []
    else (if es[0].ev == "committed" then [Ack(es[0].throughSeq, es[0].frame, es[0].revision)] else []) + Acks(es[1..])
  }

  ghost function Record(l: Ledger, c: Engines.Call, reply: Reply, after: EngineState): Ledger {
    if c.Perform? && c.op.op == OpCommit && reply.Fine?
    then l.(commits := l.commits + [Taken(Commit(Max0(c.op.opSeq), c.op.frame), after.doc.revision)])
    else if reply.Sent? then l.(handed := l.handed + [reply.event])
    else l
  }

  ghost function Recorded(e: EngineState, l: Ledger, calls: seq<Engines.Call>): Ledger
    requires EngineOk(e)
    decreases |calls|
  {
    hide *;
    if calls == [] then l
    else
      StepOk(e, calls[0]);
      var (after, reply) := Engines.Step(e, calls[0]);
      Recorded(after, Record(l, calls[0], reply, after), calls[1..])
  }

  /** Everything that was or will be handed out as critical events, in order. */
  function Stream(e: EngineState, l: Ledger): seq<Ack> { Acks(l.handed) + Acks(e.broker.critical) }

  /** `acks` answer the first commits, one each, with a revision at least theirs; `pending` are the rest. */
  ghost predicate Answers(commits: seq<Taken>, acks: seq<Ack>, pending: seq<Commit>, revision: nat) {
    && |acks| + |pending| == |commits|
    && (forall i :: 0 <= i < |acks| ==>
          && acks[i].through == commits[i].commit.through && acks[i].frame == commits[i].commit.frame
          && acks[i].revision >= commits[i].revision)
    && (forall i :: 0 <= i < |pending| ==> commits[|acks| + i].commit == pending[i])
    && (forall i :: 0 <= i < |commits| ==> commits[i].revision <= revision)
  }

  ghost predicate Balanced(e: EngineState, l: Ledger) {
    Answers(l.commits, Stream(e, l), e.pending, e.doc.revision)
  }

  // ---- acknowledgements among events ----

  lemma {:induction false} AcksConcat(a: seq<Event>, b: seq<Event>)
    ensures Acks(a + b) == Acks(a) + Acks(b)
    decreases |a|
  {
    hide *;
    if a == [] {
      assert a + b == b;
      AcksCons(a);
      assert [] + Acks(b) == Acks(b);
    } else {
      assert (a + b)[0] == a[0] && (a + b)[1..] == a[1..] + b;
      AcksCons(a);
      AcksCons(a + b);
      AcksConcat(a[1..], b);
      ConcatAssoc(HeadAck(a), Acks(a[1..]), Acks(b));
    }
  }

  function HeadAck(es: seq<Event>): seq<Ack>
    requires es != []
  {
    if es[0].ev == "committed" then [Ack(es[0].throughSeq, es[0].frame, es[0].revision)] else []
  }

  lemma AcksCons(es: seq<Event>)
    ensures Acks(es) == if es == [] then [] else HeadAck(es) + Acks(es[1..])
    ensures es != [] ==> HeadAck(es) == HeadAck([es[0]])
  {
  }

  lemma {:induction false} AcksOfPayloads(es: seq<Event>)
    ensures Acks(Payloads(es)) == Acks(es)
    decreases |es|
  {
    if es != [] {
      PayloadsCons(es);
      AcksOfPayloads(es[1..]);
      assert Payloads(es)[0] == Payload(es[0]) && Payloads(es)[1..] == Payloads(es[1..]);
    }
  }

  lemma OneAck(ev: Event)
    ensures Acks([ev]) == if ev.ev == "committed" then [Ack(ev.throughSeq, ev.frame, ev.revision)] else []
  {
    assert [ev][1..] == [];
  }

  function AcksFor(pending: seq<Commit>, revision: nat): seq<Ack> {
    seq(|pending|, i requires 0 <= i < |pending| => Ack(pending[i].through, pending[i].frame, revision))
  }

  lemma {:induction false} AcksOfBatch(pending: seq<Commit>, revision: nat)
    ensures Acks(Acknowledgements(pending, revision)) == AcksFor(pending, revision)
    decreases |pending|
  {
    var es := Acknowledgements(pending, revision);
    if pending != [] {
      AcksOfBatch(pending[1..], revision);
      assert es[0] == Acknowledgement(pending[0], revision);
      assert es[1..] == Acknowledgements(pending[1..], revision);
    }
  }

  // ---- steps ----

  lemma MoreQueued(e: EngineState, l: Ledger, b: Queues, events: seq<Event>)
    requires Payloads(b.critical) == Payloads(e.broker.critical) + Payloads(events)
    ensures Stream(e.(broker := b), l) == Stream(e, l) + Acks(events)
  {
    AcksOfPayloads(b.critical);
    AcksOfPayloads(e.broker.critical);
    AcksOfPayloads(events);
    AcksConcat(Payloads(e.broker.critical), Payloads(events));
    hide Acks;
    hide Payloads;
  }

  lemma OnePayload(ev: Event)
    ensures Payloads([ev]) == [Payload(ev)]
  {
  }

  /** An event that is no acknowledgement changes nothing. */
  lemma SendBalanced(e: EngineState, l: Ledger, ev: Event)
    requires EngineOk(e) && Balanced(e, l) && ev.ev != "committed"
    ensures Balanced(Send(e, ev).0, l)
  {
    hide *;
    SendOk(e, ev);
    var r := Send(e, ev);
    if r.1.Fine? {
      OnePayload(ev);
      MoreQueued(e, l, r.0.broker, [ev]);
      OneAck(ev);
      SameStream(e, r.0, l);
    }
  }

  lemma SameStream(e: EngineState, e': EngineState, l: Ledger)
    requires Balanced(e, l) && Stream(e', l) == Stream(e, l)
    requires e'.pending == e.pending && e'.doc.revision >= e.doc.revision
    ensures Balanced(e', l)
  {
    hide Stream;
  }

  lemma StreamOf(e: EngineState, e': EngineState, l: Ledger)
    requires e'.broker == e.broker
    ensures Stream(e', l) == Stream(e, l)
  {
  }

  lemma EmitBalanced(e: EngineState, l: Ledger, op: Operation, code: Code)
    requires EngineOk(e) && Balanced(e, l)
    ensures Balanced(EmitError(e, op, code).0, l)
  {
    EmitErrorOk(e, op, code);
    var r := EmitError(e, op, code);
    if r.0 != e {
      var ev: Event :| ReportsError(ev, op, code) && r == (Send(e, ev).0, Error(code)) && Send(e, ev).1.Fine?;
      SendBalanced(e, l, ev);
    }
    hide EngineOk;
    hide Balanced;
    hide EmitError;
    hide Send;
  }

  lemma InstallBalanced(e: EngineState, l: Ledger, op: Operation, next: Document, eff: Effect)
    requires EngineOk(e) && Balanced(e, l) && IsTree(next.nodes) && KindsTracked(e.doc, next, op, eff)
    requires eff.commit <==> op.op == OpCommit
    ensures var r := Install(e, op, next, eff); Balanced(r.0, Record(l, Perform(op, Backpressure), r.1, r.0))
  {
    hide *;
    InstallCases(e, op, next, eff);
    EmitErrorOk(e, op, Backpressure);
    EmitBalanced(e, l, op, Backpressure);
    var r := Reconcile(e.state, e.doc, next, op, eff);
    if r.Denied? {
      EmitErrorOk(e, op, r.code);
      EmitBalanced(e, l, op, r.code);
      NotRecorded(l, Perform(op, Backpressure), Error(r.code), EmitError(e, op, r.code).0);
    } else {
      RevisionGrows(e.doc, next, op, eff);
      AdvancedBalanced(e, l, op, next, r.state, eff);
    }
    var out := Install(e, op, next, eff);
    if !out.1.Fine? { NotRecorded(l, Perform(op, Backpressure), out.1, out.0); }
  }

  lemma NotRecorded(l: Ledger, c: Engines.Call, reply: Reply, after: EngineState)
    requires !reply.Fine? && !reply.Sent?
    ensures Record(l, c, reply, after) == l
  {
  }

  lemma RevisionGrows(prev: Document, next: Document, op: Operation, eff: Effect)
    requires KindsTracked(prev, next, op, eff)
    ensures next.revision >= prev.revision
  {
  }

  lemma AdvancedBalanced(e: EngineState, l: Ledger, op: Operation, next: Document, s: Projection, eff: Effect)
    requires Balanced(e, l) && next.revision >= e.doc.revision && (eff.commit <==> op.op == OpCommit)
    ensures var after := Advanced(e, next, s, eff, Commit(Max0(op.opSeq), op.frame));
      Balanced(after, Record(l, Perform(op, Backpressure), Fine, after))
  {
    var c := Commit(Max0(op.opSeq), op.frame);
    var after := Advanced(e, next, s, eff, c);
    assert Stream(after, l) == Stream(e, l);
    hide Acks;
  }

  lemma RecordOver(l: Ledger, op: Operation, over: Code, reply: Reply, after: EngineState)
    ensures Record(l, Perform(op, over), reply, after) == Record(l, Perform(op, Backpressure), reply, after)
  {
  }

  /** Only a commit sets the commit flag. */
  lemma CommitFlag(d: Document, op: Operation, limits: Limits)
    requires ReadyToMove(d.nodes) && Apply(d, op, limits).Applied?
    ensures Apply(d, op, limits).eff.commit <==> op.op == OpCommit
  {
    hide ReadyToMove;
    hide ValidateOperation;
    hide MergeNormalized;
    hide NormalizeProps;
    hide MoveNode;
    hide CutNodes;
    hide Valid;
    hide TableLimits;
    hide Marks;
    hide ExplicitKeys;
    hide IsTree;
  }

  lemma ApplyBalanced(e: EngineState, l: Ledger, op: Operation, over: Code)
    requires EngineOk(e) && Balanced(e, l)
    ensures var r := ApplyOp(e, op, over); Balanced(r.0, Record(l, Perform(op, over), r.1, r.0))
  {
    hide *;
    ApplyCases(e, op, over);
    var r := ApplyOp(e, op, over);
    RecordOver(l, op, over, r.1, r.0);
    if !r.1.Fine? && !r.1.Sent? { NotRecorded(l, Perform(op, over), r.1, r.0); }
    match Apply(e.doc, op, e.limits) {
      case Failed(code) => EmitBalanced(e, l, op, code); EmitErrorOk(e, op, code);
      case OverLimits => EmitBalanced(e, l, op, over); EmitErrorOk(e, op, over);
      case Crashed =>
      case Applied(next, eff) =>
        CommitFlag(e.doc, op, e.limits);
        InstallBalanced(e, l, op, next, eff);
    }
  }

  lemma PublishBalanced(e: EngineState, l: Ledger)
    requires EngineOk(e) && Balanced(e, l)
    ensures Balanced(PublishAll(e).0, l)
  {
    hide *;
    PublishExactly(e);
    var r := PublishAll(e);
    if r.1.Fine? {
      MoreQueued(e, l, r.0.broker, Acknowledgements(e.pending, e.doc.revision));
      AcksOfBatch(e.pending, e.doc.revision);
      StreamOf(e.(broker := r.0.broker), r.0, l);
      AllAnswered(l.commits, Stream(e, l), e.pending, e.doc.revision);
      BalancedIs(e, l);
      BalancedIs(r.0, l);
    }
  }

  lemma BalancedIs(e: EngineState, l: Ledger)
    ensures Balanced(e, l) <==> Answers(l.commits, Stream(e, l), e.pending, e.doc.revision)
  {
    hide Answers;
    hide Stream;
  }

  lemma AllAnswered(commits: seq<Taken>, acks: seq<Ack>, pending: seq<Commit>, revision: nat)
    ensures Answers(commits, acks, pending, revision) ==>
      Answers(commits, acks + AcksFor(pending, revision), [], revision)
  {
    var more := acks + AcksFor(pending, revision);
    if Answers(commits, acks, pending, revision) {
      forall i | 0 <= i < |more|
        ensures more[i].through == commits[i].commit.through && more[i].frame == commits[i].commit.frame
        ensures more[i].revision >= commits[i].revision
      {
        if i >= |acks| { assert commits[|acks| + (i - |acks|)].commit == pending[i - |acks|]; }
      }
    }
  }

  lemma HandedBalanced(e: EngineState, l: Ledger)
    requires EngineOk(e) && Balanced(e, l)
    ensures var r := Handed(e); Balanced(r.0, Record(l, NextEvent, r.1, r.0))
  {
    hide *;
    HandedOk(e);
    var r := Handed(e);
    RecordSent(l, r.1, r.0);
    if e.broker.critical != [] {
      HeadMoves(e.broker, l.handed);
      BalancedIs(e, l);
      BalancedIs(r.0, Record(l, NextEvent, r.1, r.0));
      StreamIs(e, l);
      StreamIs(r.0, Record(l, NextEvent, r.1, r.0));
    }
  }

  lemma StreamIs(e: EngineState, l: Ledger)
    ensures Stream(e, l) == Acks(l.handed) + Acks(e.broker.critical)
  {
    hide Acks;
  }

  lemma RecordSent(l: Ledger, reply: Reply, after: EngineState)
    ensures Record(l, NextEvent, reply, after) == if reply.Sent? then l.(handed := l.handed + [reply.event]) else l
  {
  }

  lemma DeliveredAck(b: Queues, ev: Event)
    ensures var out := Delivered(b, ev);
      out.ev == ev.ev && out.throughSeq == ev.throughSeq && out.frame == ev.frame && out.revision == ev.revision
  {
  }

  lemma HeadMoves(b: Queues, handed: seq<Event>)
    requires b.critical != []
    ensures Acks(handed + [Delivered(b, b.critical[0])]) + Acks(b.critical[1..]) == Acks(handed) + Acks(b.critical)
  {
    hide *;
    var ev, out, rest := b.critical[0], Delivered(b, b.critical[0]), b.critical[1..];
    AcksConcat(handed, [out]);
    AcksConcat([ev], rest);
    OneAck(ev);
    OneAck(out);
    DeliveredAck(b, ev);
    ConcatAssoc(Acks(handed), Acks([out]), Acks(rest));
    assert b.critical == [ev] + rest;
  }

  lemma SignalBalanced(e: EngineState, l: Ledger, s: Signal)
    requires EngineOk(e) && Balanced(e, l) && (s.Raise? ==> s.event.ev != "committed")
    ensures Balanced(Raised(e, s).0, l) && !Raised(e, s).1.Sent?
  {
    hide *;
    RaisedCases(e, s);
    if s.Raise? { SendBalanced(e, l, s.event); SentNothing(e, s.event); }
  }

  lemma SignalEvents(e: EngineState, c: Engines.Call)
    requires IsSignal(c) && Allowed(c)
    ensures Signalled(e, c).Raise? ==> Signalled(e, c).event.ev != "committed"
  {
    hide Selectable;
  }

  lemma StepBalanced(e: EngineState, l: Ledger, c: Engines.Call)
    requires EngineOk(e) && Balanced(e, l) && Allowed(c)
    ensures var (after, reply) := Engines.Step(e, c);
      Balanced(after, Record(l, c, reply, after))
  {
    hide *;
    StepCases(e, c);
    var (after, reply) := Engines.Step(e, c);
    QuietRecord(l, c, reply, after);
    match c {
      case Perform(op, over) => ApplyBalanced(e, l, op, over);
      case Publish => PublishBalanced(e, l); PublishExactly(e);
      case ShowGeneration(g) => PublishBalanced(e, l); PublishExactly(e); ShowCases(e, g);
      case NextEvent => HandedBalanced(e, l);
      case _ =>
        if IsLocal(c) {
          LocalIs(e, c);
          StreamOf(e, after, l);
          SameStream(e, after, l);
        } else {
          SignalOk(e, c);
          SignalEvents(e, c);
          SignalBalanced(e, l, Signalled(e, c));
        }
    }
  }

  lemma QuietRecord(l: Ledger, c: Engines.Call, reply: Reply, after: EngineState)
    ensures !c.Perform? && !reply.Sent? ==> Record(l, c, reply, after) == l
  {
  }

  /**
   Conservation: over every run, the acknowledgements handed out, then those still queued, answer the
   accepted commits one by one and in order, never with a revision older than the one at which the
   commit was accepted; the commits left over are exactly the pending ones.
   */
  lemma {:induction false} RunBalanced(e: EngineState, l: Ledger, calls: seq<Engines.Call>)
    requires EngineOk(e) && Balanced(e, l)
    requires forall i :: 0 <= i < |calls| ==> Allowed(calls[i])
    ensures Balanced(After(e, calls), Recorded(e, l, calls))
    decreases |calls|
  {
    hide *;
    AfterCases(e, calls);
    RecordedCases(e, l, calls);
    if calls != [] {
      StepBalanced(e, l, calls[0]);
      StepOk(e, calls[0]);
      var (after, reply) := Engines.Step(e, calls[0]);
      RunBalanced(after, Record(l, calls[0], reply, after), calls[1..]);
    }
  }

  lemma RecordedCases(e: EngineState, l: Ledger, calls: seq<Engines.Call>)
    requires EngineOk(e)
    ensures calls == [] ==> Recorded(e, l, calls) == l
    ensures calls != [] ==>
      var (after, reply) := Engines.Step(e, calls[0]);
      EngineOk(after) && Recorded(e, l, calls) == Recorded(after, Record(l, calls[0], reply, after), calls[1..])
  {
    hide EngineOk;
    hide Engines.Step;
    hide Record;
    if calls != [] { StepOk(e, calls[0]); }
  }

  lemma CommitsConserved(configured: Limits, requested: int, calls: seq<Engines.Call>)
    requires DocumentBytes(NewDocument().nodes) <= EffectiveLimits(configured).maxDocumentBytes
    requires forall i :: 0 <= i < |calls| ==> Allowed(calls[i])
    ensures var e := NewEngine(configured, requested);
      EngineOk(e) && Balanced(After(e, calls), Recorded(e, BLANK_LEDGER, calls))
  {
    hide *;
    NewOk(configured, requested);
    NewBalanced(configured, requested);
    RunBalanced(NewEngine(configured, requested), BLANK_LEDGER, calls);
  }

  lemma NewBalanced(configured: Limits, requested: int)
    ensures Balanced(NewEngine(configured, requested), BLANK_LEDGER)
  {
    hide NewDocument;
    hide EffectiveLimits;
  }
}

/** What the daemon does for its two sides: operations reach the screen, interactions and frames the engine. */
module ServiceLaws {
  import opened Protocol
  import opened Documents
  import opened Engines
  import opened EngineLaws
  import opened Leases
  import opened Daemons
  import opened DaemonLaws
  import Broker

  lemma AgentMoves(d: DaemonState, op: Operation, over: Code)
    requires EngineOk(d.engine)
    ensures var r := Engines.Step(d.engine, Perform(op, over));
      !d.due ==> Moved(d, AgentApply(op, over)) == d.(engine := r.0, due := r.1.Fine?)
    ensures d.due ==> Moved(d, AgentSignal) == d.(slot := true, due := false)
    ensures Moved(d, AgentDrain) == d.(engine := Engines.Step(d.engine, NextEvent).0)
  {
    hide EngineOk;
    hide Engines.Step;
  }

  /** The moves with which a waiting handler serves its client. */
  lemma ServingMoves(d: DaemonState, h: Conn, call: Engines.Call, g: nat)
    requires EngineOk(d.engine) && h in d.handlers
    ensures var x := d.handlers[h];
      && (x.phase.Selecting? && d.slot ==>
            Moved(d, TakeSignal(h)) == Put(d.(slot := false), h, x.(phase := Snapping)))
      && (x.phase.Snapping? ==>
            Moved(d, TakeSnapshot(h)) == Put(d, h, x.(phase := Writing(Present(d.engine)))))
      && (x.phase.Writing? ==>
            Moved(d, SendSnapshot(h, true)) == Put(d, h, x.(phase := Selecting, sent := x.sent + [x.phase.view])))
      && (x.phase.Selecting? && Interaction(call) ==>
            var (e, reply) := Engines.Step(d.engine, call);
            Moved(d, Interact(h, call)) ==
              Put(d.(engine := e), h, x.(phase := if reply.Error? then Selecting else Snapping)))
      && (x.phase.Selecting? ==>
            Moved(d, ReadToken(h, g)) ==
              if g != d.engine.token || !NeedsShowing(d.engine) then d else Put(d, h, x.(phase := Confirming(g))))
      && (x.phase == Confirming(g) ==>
            Moved(d, Confirm(h)) ==
              Put(d.(engine := Engines.Step(d.engine, ShowGeneration(g)).0), h, x.(phase := Selecting)))
  {
    hide EngineOk;
    hide Engines.Step;
    hide Interaction;
    hide Present;
    hide NeedsShowing;
  }

  lemma RanStep(d: DaemonState, m: Move, rest: seq<Move>)
    requires DaemonOk(d)
    ensures EngineOk(d.engine) && DaemonOk(Moved(d, m)) && Ran(d, [m] + rest) == Ran(Moved(d, m), rest)
    ensures rest == [] ==> Ran(d, [m] + rest) == Moved(d, m)
  {
    hide *;
    RanCases(d, [m] + rest);
    assert ([m] + rest)[0] == m && ([m] + rest)[1..] == rest;
    RanCases(Moved(d, m), rest);
  }

  /** The handler takes a snapshot and writes it. */
  function Serving(h: Conn): seq<Move> { [TakeSnapshot(h)] + ([SendSnapshot(h, true)] + []) }

  lemma SnapshotServed(d: DaemonState, h: Conn)
    requires DaemonOk(d) && h in d.handlers && d.handlers[h].phase.Snapping?
    ensures var x := d.handlers[h];
      Ran(d, Serving(h)) == Put(d, h, x.(phase := Selecting, sent := x.sent + [Present(d.engine)]))
  {
    assert Serving(h) == [TakeSnapshot(h)] + ([SendSnapshot(h, true)] + []);
    hide *;
    RanStep(d, TakeSnapshot(h), [SendSnapshot(h, true)] + []);
    ServingMoves(d, h, Submit(""), 0);
    var d' := Moved(d, TakeSnapshot(h));
    PutIs(d, h, d.handlers[h].(phase := Writing(Present(d.engine))));
    DaemonParts(d');
    RanStep(d', SendSnapshot(h, true), []);
    ServingMoves(d', h, Submit(""), 0);
    PutTwice(d, h, d.handlers[h].(phase := Writing(Present(d.engine))),
             d.handlers[h].(phase := Selecting, sent := d.handlers[h].sent + [Present(d.engine)]));
  }

  lemma PutIs(d: DaemonState, h: Conn, x: Handler)
    ensures var d' := Put(d, h, x);
      h in d'.handlers && d'.handlers[h] == x && d'.engine == d.engine && d'.slot == d.slot && d'.due == d.due
  {
  }

  lemma PutTwice(d: DaemonState, h: Conn, x: Handler, y: Handler)
    ensures Put(Put(d, h, x), h, y) == Put(d, h, y)
  {
  }

  /** The last snapshot the waiting handler wrote is what the engine presents now. */
  ghost predicate OnScreen(d: DaemonState, h: Conn) {
    && h in d.handlers && d.handlers[h].phase.Selecting? && d.handlers[h].sent != []
    && d.handlers[h].sent[|d.handlers[h].sent| - 1] == Present(d.engine)
  }

  lemma PutOnScreen(d: DaemonState, h: Conn, x: Handler, sent: seq<View>)
    requires x.phase.Selecting? && x.sent == sent + [Present(d.engine)]
    ensures OnScreen(Put(d, h, x), h) && Put(d, h, x).engine == d.engine
  {
    hide Present;
  }

  /**
   An operation the engine accepts reaches the screen: after the agent's call and its signal, the waiting
   handler takes the signal and a snapshot and writes what the engine then presents.
   */
  lemma OperationReachesScreen(d: DaemonState, h: Conn, op: Operation, over: Code)
    requires DaemonOk(d) && h in d.handlers && d.handlers[h].phase.Selecting? && !d.due
    ensures EngineOk(d.engine)
    ensures var (e, reply) := ApplyOp(d.engine, op, over);
      var moves := [AgentApply(op, over)] + ([AgentSignal] + ([TakeSignal(h)] + Serving(h)));
      reply.Fine? ==> OnScreen(Ran(d, moves), h) && Ran(d, moves).engine == e
  {
    hide *;
    DaemonParts(d);
    var (e, reply) := ApplyOp(d.engine, op, over);
    StepCases(d.engine, Perform(op, over));
    if reply.Fine? {
      var x := d.handlers[h];
      RanStep(d, AgentApply(op, over), [AgentSignal] + ([TakeSignal(h)] + Serving(h)));
      AgentMoves(d, op, over);
      var d1 := d.(engine := e, due := true);
      DaemonParts(d1);
      RanStep(d1, AgentSignal, [TakeSignal(h)] + Serving(h));
      AgentMoves(d1, op, over);
      var d2 := d1.(slot := true, due := false);
      DaemonParts(d2);
      RanStep(d2, TakeSignal(h), Serving(h));
      ServingMoves(d2, h, Submit(""), 0);
      var d3 := Put(d2.(slot := false), h, x.(phase := Snapping));
      PutIs(d2.(slot := false), h, x.(phase := Snapping));
      SnapshotServed(d3, h);
      PutOnScreen(d3, h, x.(phase := Selecting, sent := x.sent + [Present(e)]), x.sent);
    }
  }

  /**
   What the client asks for happens: an interaction the engine accepts changes it, and the handler writes
   what it then presents; a refused one changes nothing.
   */
  lemma InteractionReachesScreen(d: DaemonState, h: Conn, call: Engines.Call)
    requires DaemonOk(d) && h in d.handlers && d.handlers[h].phase.Selecting? && Interaction(call)
    ensures EngineOk(d.engine)
    ensures var (e, reply) := Engines.Step(d.engine, call);
      if reply.Error? then Ran(d, [Interact(h, call)]) == d
      else OnScreen(Ran(d, [Interact(h, call)] + Serving(h)), h) && Ran(d, [Interact(h, call)] + Serving(h)).engine == e
  {
    hide *;
    DaemonParts(d);
    var (e, reply) := Engines.Step(d.engine, call);
    var x := d.handlers[h];
    ServingMoves(d, h, call, 0);
    if reply.Error? {
      RanStep(d, Interact(h, call), []);
      assert [Interact(h, call)] + [] == [Interact(h, call)];
      RefusedSame(d.engine, call);
      PutSame(d, h);
    } else {
      RanStep(d, Interact(h, call), Serving(h));
      var d1 := Put(d.(engine := e), h, x.(phase := Snapping));
      PutIs(d.(engine := e), h, x.(phase := Snapping));
      SnapshotServed(d1, h);
      PutOnScreen(d1, h, x.(phase := Selecting, sent := x.sent + [Present(e)]), x.sent);
    }
  }

  lemma PutSame(d: DaemonState, h: Conn)
    requires h in d.handlers && d.handlers[h].phase.Selecting?
    ensures Put(d.(engine := d.engine), h, d.handlers[h].(phase := Selecting)) == d
  {
    assert d.handlers[h := d.handlers[h]] == d.handlers;
  }

  /**
   A client that acknowledges the token of what waits to be shown publishes it, if the acknowledgements
   fit the queue: one `committed` event for each waiting commit. Any other token changes nothing.
   */
  lemma AcknowledgementPublishes(d: DaemonState, h: Conn, g: nat)
    requires DaemonOk(d) && h in d.handlers && d.handlers[h].phase.Selecting?
    ensures EngineOk(d.engine)
    ensures g != d.engine.token || !NeedsShowing(d.engine) ==> Ran(d, [ReadToken(h, g)]) == d
    ensures g == d.engine.token && NeedsShowing(d.engine)
            && (d.engine.pending == [] || Broker.Depth(d.engine.broker) + |d.engine.pending| <= d.engine.broker.cap) ==>
      var d' := Ran(d, [ReadToken(h, g)] + ([Confirm(h)] + []));
      && d'.engine.doc == d.engine.doc && d'.engine.pending == [] && !NeedsShowing(d'.engine)
      && h in d'.handlers && d'.handlers[h] == d.handlers[h]
      && Broker.Payloads(d'.engine.broker.critical) == Broker.Payloads(d.engine.broker.critical)
           + Broker.Payloads(Acknowledgements(d.engine.pending, d.engine.doc.revision))
  {
    hide *;
    DaemonParts(d);
    var x := d.handlers[h];
    ServingMoves(d, h, Submit(""), g);
    if g != d.engine.token || !NeedsShowing(d.engine) {
      RanStep(d, ReadToken(h, g), []);
      assert [ReadToken(h, g)] + [] == [ReadToken(h, g)];
    } else {
      RanStep(d, ReadToken(h, g), [Confirm(h)] + []);
      var d1 := Put(d, h, x.(phase := Confirming(g)));
      PutIs(d, h, x.(phase := Confirming(g)));
      DaemonParts(d1);
      RanStep(d1, Confirm(h), []);
      ServingMoves(d1, h, Submit(""), g);
      StepCases(d.engine, ShowGeneration(g));
      ShowCases(d.engine, g);
      PublishExactly(d.engine);
      PutIs(d1.(engine := Engines.Step(d.engine, ShowGeneration(g)).0), h, x);
      BackToSelecting(x, g);
    }
  }

  lemma BackToSelecting(x: Handler, g: nat)
    requires x.phase.Selecting?
    ensures x.(phase := Confirming(g)).(phase := Selecting) == x
  {
  }
}

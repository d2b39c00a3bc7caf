/** What holds in every interleaving of the agent and any number of client handlers. */
module DaemonLaws {
  import opened Protocol
  import opened Documents
  import opened Projections
  import opened Engines
  import opened EngineLaws
  import opened Broker
  import opened Leases
  import opened Daemons
  import opened Clients

  lemma MoveOk(d: DaemonState, m: Move)
    requires DaemonOk(d)
    ensures EngineOk(d.engine) && DaemonOk(Moved(d, m))
  {
    DaemonParts(d);
    MoveKinds(d, m);
    hide *;
    if m.AgentApply? || m.AgentSignal? || m.AgentDrain? {
      if Enabled(d, m) { AgentMoveOk(d, m); }
    } else if Outsider(m) {
      if Enabled(d, m) { OutsiderMoveOk(d, m); }
    } else {
      if Enabled(d, m) { InsiderMoveOk(d, m); }
    }
  }

  lemma MoveKinds(d: DaemonState, m: Move)
    requires EngineOk(d.engine)
    ensures !Enabled(d, m) ==> Moved(d, m) == d
    ensures m.AgentApply? || m.AgentSignal? || m.AgentDrain? || Outsider(m) || Insider(m)
  {
    hide EngineOk;
    hide Enabled;
    hide HandlerMove;
  }

  ghost function Ran(d: DaemonState, moves: seq<Move>): (r: DaemonState)
    requires DaemonOk(d)
    ensures DaemonOk(r)
    decreases |moves|
  {
    hide *;
    if moves == [] then d
    else
      MoveOk(d, moves[0]);
      Ran(Moved(d, moves[0]), moves[1..])
  }

  /** Every interleaving of moves, of any length, from a new daemon. */
  lemma ReachableDaemonOk(configured: Limits, moves: seq<Move>)
    requires DocumentBytes(NewDocument().nodes) <= EffectiveLimits(configured).maxDocumentBytes
    ensures DaemonOk(NewDaemon(configured)) && DaemonOk(Ran(NewDaemon(configured), moves))
  {
    hide *;
    NewOk(configured, EffectiveLimits(configured).maxPendingEvents);
    NewDaemonOk(configured);
  }

  lemma NewDaemonOk(configured: Limits)
    requires EngineOk(NewEngine(configured, EffectiveLimits(configured).maxPendingEvents))
    ensures DaemonOk(NewDaemon(configured))
  {
    hide EngineOk;
    hide NewEngine;
    hide EffectiveLimits;
    hide HandlerOk;
  }

  // ---- the lease ----

  /** At most one handler holds the lease; it is the one the lease names, and its connection is the recorded one. */
  lemma OneClient(d: DaemonState, g: Conn, h: Conn)
    requires DaemonOk(d) && g in d.handlers && h in d.handlers
    requires d.handlers[g].clientId != 0 && d.handlers[h].clientId != 0
    ensures g == h && d.handlers[h].clientId == d.lease.active
    ensures d.activeConn == None || d.activeConn == Some(h)
  {
    assert HandlerOk(d, h, d.handlers[h]);
    hide EngineOk;
    hide LeaseOk;
    hide HandlerOk;
    hide StreamOk;
    HandlerLease(d, h);
  }

  lemma HandlerLease(d: DaemonState, h: Conn)
    requires HandlersOk(d) && h in d.handlers
    ensures d.handlers[h].clientId != 0 ==> d.handlers[h].clientId == d.lease.active
    ensures d.handlers[h].clientId != 0 <==> Holds(d.handlers[h].phase)
  {
    assert HandlerOk(d, h, d.handlers[h]);
    hide StreamOk;
  }

  /** A granted identifier was never granted before. */
  lemma LeaseFresh(d: DaemonState, m: Move)
    requires DaemonOk(d) && m.Acquire? && Enabled(d, m) && m.h in d.handlers
    ensures EngineOk(d.engine)
    ensures var d' := Moved(d, m);
      && m.h in d'.handlers
      && (if d.lease.active != 0 then d'.lease == d.lease && d'.handlers[m.h].phase == Gone
          else d'.handlers[m.h].clientId == d'.lease.active && d'.lease.active !in d.lease.granted)
  {
    DaemonParts(d);
    HandlerLease(d, m.h);
    OutsiderPhases(d, m);
    AcquireIs(d, m.h);
    hide EngineOk;
    hide HandlersOk;
    hide OneHolder;
    hide Moved;
    hide Holds;
  }

  /** Only the handler with the lease, and the agent, ever touch the engine, the lease in use or the connection. */
  lemma StrangerHarmless(d: DaemonState, m: Move, h: Conn)
    requires DaemonOk(d) && h in d.handlers && d.handlers[h].clientId != 0
    requires !m.AgentApply? && !m.AgentSignal? && !m.AgentDrain? && m.h != h
    ensures EngineOk(d.engine)
    ensures var d' := Moved(d, m);
      && d'.engine == d.engine && d'.slot == d.slot && d'.due == d.due
      && d'.lease == d.lease && d'.activeConn == d.activeConn
      && h in d'.handlers && d'.handlers[h] == d.handlers[h]
  {
    hide *;
    DaemonParts(d);
    MoveKinds(d, m);
    if Enabled(d, m) {
      if Outsider(m) {
        OutsiderKinds(m);
        OutsiderIs(d, m);
        HandlerLease(d, h);
        OutsideKeeps(d, Moved(d, m), m.h, Moved(d, m).handlers[m.h], h);
      } else {
        InsiderPhase(d, m);
        HandlerLease(d, m.h);
        OneClient(d, m.h, h);
        assert false;
      }
    }
  }

  lemma OutsiderKinds(m: Move)
    ensures Outsider(m) <==> m.Connect? || m.Greet? || m.Acquire?
  {
  }

  lemma OutsideKeeps(d: DaemonState, d': DaemonState, g: Conn, x: Handler, h: Conn)
    requires Outside(d, d', g, x) && h in d.handlers && g != h && d.lease.active != 0
    ensures d'.engine == d.engine && d'.slot == d.slot && d'.due == d.due
    ensures d'.lease == d.lease && d'.activeConn == d.activeConn
    ensures h in d'.handlers && d'.handlers[h] == d.handlers[h]
  {
  }

  /** A snapshot, an interaction, an acknowledgement, a detach: only ever by the handler that has the lease. */
  lemma OnlyHolderActs(d: DaemonState, m: Move)
    requires DaemonOk(d) && Enabled(d, m) && Insider(m)
    ensures m.h in d.handlers && d.handlers[m.h].clientId == d.lease.active != 0
  {
    hide *;
    DaemonParts(d);
    InsiderPhase(d, m);
    HandlerLease(d, m.h);
  }

  /** The move with which a handler that holds the lease goes on towards giving it back; every write fails. */
  function Onward(h: Conn, p: Phase): Move {
    match p
    case Registering => Register(h)
    case Acknowledging => SendAck(h, false)
    case Snapping => TakeSnapshot(h)
    case Writing(_) => SendSnapshot(h, false)
    case Confirming(_) => Confirm(h)
    case Clearing => ClearConn(h)
    case Releasing => Release(h)
    case _ => Leave(h)
  }

  /** How many such moves are left. */
  function MovesLeft(p: Phase): nat {
    match p
    case Registering => 4
    case Snapping => 4
    case Confirming(_) => 4
    case Acknowledging => 3
    case Writing(_) => 3
    case Selecting => 3
    case Clearing => 2
    case Releasing => 1
    case _ => 0
  }

  /** A move of the handler with the lease, here `h`. */
  predicate OwnMove(m: Move, h: Conn) { Insider(m) && m.h == h }

  lemma Owner(d: DaemonState) returns (h: Conn)
    requires OneHolder(d) && d.lease.active != 0
    ensures h in d.handlers && d.handlers[h].clientId != 0
  {
    h :| h in d.handlers && d.handlers[h].clientId != 0;
  }

  lemma OnwardEnabled(d: DaemonState, h: Conn)
    requires h in d.handlers && Holds(d.handlers[h].phase)
    ensures var m := Onward(h, d.handlers[h].phase);
      Enabled(d, m) && Insider(m) && OwnMove(m, h) && m.h == h
    ensures 1 <= MovesLeft(d.handlers[h].phase) <= 4
  {
  }

  lemma OnwardPhase(d: DaemonState, h: Conn)
    requires EngineOk(d.engine) && h in d.handlers && Holds(d.handlers[h].phase)
    requires Enabled(d, Onward(h, d.handlers[h].phase))
    ensures var p, d' := d.handlers[h].phase, Moved(d, Onward(h, d.handlers[h].phase));
      && h in d'.handlers && MovesLeft(d'.handlers[h].phase) == MovesLeft(p) - 1
      && (Holds(d'.handlers[h].phase) <==> !p.Releasing?) && (p.Releasing? <==> MovesLeft(p) == 1)
  {
    hide EngineOk;
    hide Engines.Step;
    hide Present;
    hide Released;
  }

  /** Each such move brings the handler closer, and the last one frees the lease. */
  lemma OnwardStep(d: DaemonState, h: Conn)
    requires DaemonOk(d) && h in d.handlers && Holds(d.handlers[h].phase)
    ensures EngineOk(d.engine)
    ensures var p, d' := d.handlers[h].phase, Moved(d, Onward(h, d.handlers[h].phase));
      && DaemonOk(d') && h in d'.handlers && MovesLeft(d'.handlers[h].phase) == MovesLeft(p) - 1
      && if MovesLeft(p) == 1 then d'.lease.active == 0 else Holds(d'.handlers[h].phase)
  {
    hide *;
    DaemonParts(d);
    OnwardEnabled(d, h);
    OnwardPhase(d, h);
    var m := Onward(h, d.handlers[h].phase);
    MoveOk(d, m);
    HandlerLease(d, h);
    Alone(d, h);
    InsiderIs(d, m);
    var d' := Moved(d, m);
    InsideLease(d, d', h, d.handlers[h], d'.handlers[h]);
  }

  lemma InsideLease(d: DaemonState, d': DaemonState, h: Conn, x: Handler, y: Handler)
    requires Inside(d, d', h, x, y)
    ensures !Holds(y.phase) ==> d'.lease.active == 0
  {
    hide EngineOk;
    hide HandlerOk;
    hide Holds;
    hide Recorded;
  }

  lemma {:induction false} WayOut(d: DaemonState, h: Conn) returns (moves: seq<Move>)
    requires DaemonOk(d) && h in d.handlers && Holds(d.handlers[h].phase)
    ensures |moves| == MovesLeft(d.handlers[h].phase)
    ensures forall m :: m in moves ==> OwnMove(m, h)
    ensures Ran(d, moves).lease.active == 0
    decreases MovesLeft(d.handlers[h].phase)
  {
    hide *;
    var m := Onward(h, d.handlers[h].phase);
    OnwardEnabled(d, h);
    OnwardStep(d, h);
    DaemonParts(d);
    var d' := Moved(d, m);
    var rest: seq<Move> := [];
    if MovesLeft(d.handlers[h].phase) > 1 { rest := WayOut(d', h); }
    moves := [m] + rest;
    assert moves[1..] == rest;
    RanCases(d, moves);
    RanCases(d', rest);
  }

  /**
   A taken lease is never orphaned: at any time at most four moves of the handler that has it, and of
   nobody else, give it back.
   */
  lemma LeaseReturns(d: DaemonState) returns (h: Conn, moves: seq<Move>)
    requires DaemonOk(d) && d.lease.active != 0
    ensures h in d.handlers && d.handlers[h].clientId == d.lease.active
    ensures |moves| <= 4
    ensures forall m :: m in moves ==> OwnMove(m, h)
    ensures Ran(d, moves).lease.active == 0
  {
    hide *;
    DaemonParts(d);
    h := Owner(d);
    HandlerLease(d, h);
    OnwardEnabled(d, h);
    moves := WayOut(d, h);
  }

  // ---- no lost update ----

  /**
   Whenever the holder waits with an empty update slot and no agent call is between apply and
   signal, the last snapshot it wrote shows the current document and publication token, and all
   the rest of the presentation but the pending flag; across detach, failed writes and reattach.
   */
  lemma NoLostUpdate(d: DaemonState, h: Conn)
    requires DaemonOk(d) && h in d.handlers && d.handlers[h].phase.Selecting? && !d.slot && !d.due
    ensures var sent := d.handlers[h].sent;
      && sent != []
      && var last := sent[|sent| - 1];
      && last == Present(d.engine).(pending := last.pending)
      && last.doc == d.engine.doc && last.token == d.engine.token
  {
    DaemonParts(d);
    hide DaemonOk;
    hide EngineOk;
    hide LeaseOk;
    hide OneHolder;
    assert HandlerOk(d, h, d.handlers[h]);
    hide HandlersOk;
  }

  /** The client has received some of what was written to it, in order. */
  lemma ClientFollows(d: DaemonState, h: Conn, received: nat)
    requires DaemonOk(d) && h in d.handlers && 1 <= received <= |d.handlers[h].sent|
    ensures var sent := d.handlers[h].sent;
      Cached(sent[0], sent[1..received]) == sent[received - 1]
  {
    hide *;
    DaemonParts(d);
    SentRises(d, h);
    RisingPrefix(d.handlers[h].sent, received);
  }

  lemma RisingPrefix(sent: seq<View>, received: nat)
    requires 1 <= received <= |sent|
    requires forall i, j :: 0 <= i < j < |sent| ==> sent[i].renderGeneration <= sent[j].renderGeneration
    ensures Cached(sent[0], sent[1..received]) == sent[received - 1]
  {
    RisingStreamKept(sent[0], sent[1..received]);
    hide Cached;
  }

  lemma SentRises(d: DaemonState, h: Conn)
    requires HandlersOk(d) && h in d.handlers
    ensures var sent := d.handlers[h].sent;
      forall i, j :: 0 <= i < j < |sent| ==> sent[i].renderGeneration <= sent[j].renderGeneration
  {
    var x := d.handlers[h];
    assert HandlerOk(d, h, x);
    if x.phase.Writing? {
      var all := x.sent + [x.phase.view];
      assert forall i :: 0 <= i < |x.sent| ==> all[i] == x.sent[i];
    }
    hide Current;
    hide Holds;
    hide Recorded;
  }

  /**
   End to end: once things are quiet and the client has received everything, it shows the current
   document, and acknowledging what it shows is never stale: the waiting frame is published unless
   the event queue has no room for the acknowledgements.
   */
  lemma QuietClientIsCurrent(d: DaemonState, h: Conn)
    requires DaemonOk(d) && h in d.handlers && d.handlers[h].phase.Selecting? && !d.slot && !d.due
    ensures EngineOk(d.engine) && d.handlers[h].sent != []
    ensures var sent := d.handlers[h].sent;
      var shown := Cached(sent[0], sent[1..]);
      var reply := Engines.Step(d.engine, ShowGeneration(shown.token)).1;
      && shown.doc == d.engine.doc && shown.token == d.engine.token
      && (NeedsShowing(d.engine) ==> reply == Shown || reply == Error(Backpressure))
  {
    hide *;
    DaemonParts(d);
    NoLostUpdate(d, h);
    var sent := d.handlers[h].sent;
    ClientFollows(d, h, |sent|);
    assert sent[1..|sent|] == sent[1..];
    StepCases(d.engine, ShowGeneration(d.engine.token));
    ShowCases(d.engine, d.engine.token);
    PublishExactly(d.engine);
  }

  // ---- an acknowledged frame is the one that was sent ----

  /** As long as its token is the current one, a snapshot shows the current document and bindings. */
  ghost predicate Tells(v: View, e: EngineState) {
    v.token <= e.token && (v.token == e.token ==> v.doc == e.doc && v.bindings == e.state.bindings)
  }

  ghost predicate HandlerTells(x: Handler, e: EngineState) {
    && (forall i :: 0 <= i < |x.sent| ==> Tells(x.sent[i], e))
    && (x.phase.Writing? ==> Tells(x.phase.view, e))
  }

  /** Every snapshot any client was ever sent, or is being sent. */
  ghost predicate Truthful(d: DaemonState) {
    forall h :: h in d.handlers ==> HandlerTells(d.handlers[h], d.engine)
  }

  lemma TellsLater(v: View, e: EngineState, e': EngineState)
    requires Tells(v, e) && Since(e, e')
    ensures Tells(v, e')
  {
  }

  lemma HandlerTellsLater(x: Handler, e: EngineState, e': EngineState)
    requires HandlerTells(x, e) && Since(e, e')
    ensures HandlerTells(x, e')
  {
    hide Tells;
    hide Since;
    forall i | 0 <= i < |x.sent| ensures Tells(x.sent[i], e') { TellsLater(x.sent[i], e, e'); }
    if x.phase.Writing? { TellsLater(x.phase.view, e, e'); }
  }

  /** A handler sends only what it took from the engine. */
  ghost predicate Carries(d: DaemonState, h: Conn, y: Handler) {
    if h !in d.handlers then y.sent == [] && !y.phase.Writing?
    else
      var x := d.handlers[h];
      || y == x
      || ((y.sent == x.sent || (x.phase.Writing? && y.sent == x.sent + [x.phase.view]))
          && (y.phase.Writing? ==> y.phase.view == Present(d.engine)))
  }

  lemma MoveCarries(d: DaemonState, m: Move)
    requires DaemonOk(d) && EngineOk(d.engine)
    ensures forall h :: h in Moved(d, m).handlers ==> Carries(d, h, Moved(d, m).handlers[h])
  {
    hide EngineOk;
    hide LeaseOk;
    hide HandlersOk;
    hide OneHolder;
    hide Engines.Step;
    hide Present;
    hide Acquired;
    hide Released;
  }

  lemma EngineLater(d: DaemonState, m: Move)
    requires EngineOk(d.engine)
    ensures Since(d.engine, Moved(d, m).engine)
  {
    hide *;
    SinceItself(d.engine);
    EngineKept(d, m);
    if Enabled(d, m) {
      match m {
        case AgentApply(op, over) => AgentIs(d, m); StepSince(d.engine, Perform(op, over));
        case AgentDrain => AgentIs(d, m); StepSince(d.engine, NextEvent);
        case Interact(_, call) => EnabledHandler(d, m); InteractIs(d, m); StepSince(d.engine, call);
        case Confirm(h) =>
          EnabledHandler(d, m);
          ConfirmIs(d, m);
          StepSince(d.engine, ShowGeneration(d.handlers[h].phase.generation));
        case _ =>
      }
    }
  }

  lemma EnabledHandler(d: DaemonState, m: Move)
    requires Enabled(d, m) && (m.Interact? || m.Confirm?)
    ensures m.h in d.handlers
  {
  }

  lemma EngineKept(d: DaemonState, m: Move)
    requires EngineOk(d.engine)
    ensures !Enabled(d, m) || !(m.AgentApply? || m.AgentDrain? || m.Interact? || m.Confirm?) ==>
      Moved(d, m).engine == d.engine
  {
    hide EngineOk;
    hide Engines.Step;
    hide Present;
  }

  lemma CarriedTells(d: DaemonState, e': EngineState, h: Conn, y: Handler)
    requires Truthful(d) && Carries(d, h, y) && Since(d.engine, e')
    ensures HandlerTells(y, e')
  {
    hide Since;
    if h in d.handlers {
      HandlerTellsLater(d.handlers[h], d.engine, e');
      assert Tells(Present(d.engine), d.engine);
      TellsLater(Present(d.engine), d.engine, e');
    }
    hide Tells;
    hide Present;
  }

  lemma MoveTruthful(d: DaemonState, m: Move)
    requires DaemonOk(d) && Truthful(d)
    ensures EngineOk(d.engine) && Truthful(Moved(d, m))
  {
    DaemonParts(d);
    MoveCarries(d, m);
    EngineLater(d, m);
    hide DaemonOk;
    hide EngineOk;
    hide Moved;
    hide Carries;
    hide Since;
    hide HandlerTells;
    var d' := Moved(d, m);
    forall h | h in d'.handlers ensures HandlerTells(d'.handlers[h], d'.engine) {
      CarriedTells(d, d'.engine, h, d'.handlers[h]);
    }
  }

  lemma {:induction false} RunTruthful(d: DaemonState, moves: seq<Move>)
    requires DaemonOk(d) && Truthful(d)
    ensures Truthful(Ran(d, moves))
    decreases |moves|
  {
    hide *;
    RanCases(d, moves);
    if moves != [] {
      MoveOk(d, moves[0]);
      MoveTruthful(d, moves[0]);
      RunTruthful(Moved(d, moves[0]), moves[1..]);
    }
  }

  lemma RanCases(d: DaemonState, moves: seq<Move>)
    requires DaemonOk(d)
    ensures moves == [] ==> Ran(d, moves) == d
    ensures moves != [] ==>
      && EngineOk(d.engine) && DaemonOk(Moved(d, moves[0]))
      && Ran(d, moves) == Ran(Moved(d, moves[0]), moves[1..])
  {
    DaemonParts(d);
    hide DaemonOk;
    hide EngineOk;
    hide Moved;
    if moves != [] { MoveOk(d, moves[0]); }
  }

  /**
   In every interleaving: when a client acknowledges the token of a snapshot it was sent, and the
   acknowledgement goes through after any delay between its two regions, the document, the key
   bindings and the revision in the emitted events are those of that snapshot.
   */
  lemma AcknowledgedAsShown(configured: Limits, moves: seq<Move>, h: Conn, k: nat)
    requires DocumentBytes(NewDocument().nodes) <= EffectiveLimits(configured).maxDocumentBytes
    requires DaemonOk(NewDaemon(configured))
    requires var d := Ran(NewDaemon(configured), moves);
      && h in d.handlers && k < |d.handlers[h].sent| && d.handlers[h].phase.Confirming?
      && d.handlers[h].phase.generation == d.handlers[h].sent[k].token
    ensures var d := Ran(NewDaemon(configured), moves);
      var v := d.handlers[h].sent[k];
      var (after, reply) := Engines.Step(d.engine, ShowGeneration(v.token));
      reply.Shown? ==>
        && v.doc == d.engine.doc && v.bindings == d.engine.state.bindings
        && Payloads(after.broker.critical) == Payloads(d.engine.broker.critical)
             + Payloads(Acknowledgements(d.engine.pending, v.doc.revision))
  {
    hide *;
    var d := Ran(NewDaemon(configured), moves);
    NewTruthful(configured);
    RunTruthful(NewDaemon(configured), moves);
    TruthfulAt(d, h, k);
    DaemonParts(d);
    var v := d.handlers[h].sent[k];
    StepCases(d.engine, ShowGeneration(v.token));
    ShowCases(d.engine, v.token);
    PublishExactly(d.engine);
  }

  lemma TruthfulAt(d: DaemonState, h: Conn, k: nat)
    requires Truthful(d) && h in d.handlers && k < |d.handlers[h].sent|
    ensures var v := d.handlers[h].sent[k];
      v.token == d.engine.token ==> v.doc == d.engine.doc && v.bindings == d.engine.state.bindings
  {
    assert HandlerTells(d.handlers[h], d.engine);
  }

  lemma NewTruthful(configured: Limits)
    ensures Truthful(NewDaemon(configured))
  {
    hide NewEngine;
    hide EffectiveLimits;
  }
}

/**
 The daemon as interleaved steps (daemon/server.go, agent.go, daemon.go, publication.go): one move is
 one region under a lock, one channel operation, or one message written to a connection. Any number
 of client handlers and the agent's call run side by side.
 */
module Daemons {
  import opened Protocol
  import opened Documents
  import opened Reducer
  import opened Projections
  import opened ProjectionLaws
  import opened Engines
  import opened Leases
  import Broker
  import opened EngineLaws

  type Conn = nat

  datatype Phase =
    | Greeting                          // waits for hello
    | Acquiring                         // hello was fine
    | Registering                       // holds the lease, connection not yet recorded
    | Acknowledging                     // writes hello_ack
    | Snapping                          // takes a snapshot next
    | Writing(view: View)               // writes it
    | Selecting                         // waits for a signal or a message
    | Confirming(generation: nat)       // between the two regions of ackPublication
    | Clearing                          // detached or failed: forgets the connection next
    | Releasing                         // gives the lease back next
    | Gone

  /** `sent` lists the snapshots written to the client, in order. */
  datatype Handler = Handler(phase: Phase, clientId: nat, sent: seq<View>)

  /** `slot` is the update channel; `due` says that an agent call is between apply and signal. */
  datatype DaemonState = DaemonState(
    engine: EngineState, slot: bool, due: bool, lease: Lease, activeConn: Option<Conn>,
    handlers: map<Conn, Handler>)

  datatype Move =
    | AgentApply(op: Operation, over: Code)
    | AgentSignal
    | AgentDrain
    | Connect(h: Conn)
    | Greet(h: Conn, ok: bool)
    | Acquire(h: Conn)
    | Register(h: Conn)
    | SendAck(h: Conn, ok: bool)
    | TakeSnapshot(h: Conn)
    | SendSnapshot(h: Conn, ok: bool)
    | TakeSignal(h: Conn)
    | Interact(h: Conn, call: Engines.Call)
    | ReadToken(h: Conn, generation: nat)
    | Confirm(h: Conn)
    | Leave(h: Conn)
    | ClearConn(h: Conn)
    | Release(h: Conn)

  function NewDaemon(configured: Limits): DaemonState {
    DaemonState(NewEngine(configured, EffectiveLimits(configured).maxPendingEvents), false, false, FREE, None, map[])
  }

  /** What a client may ask for. */
  predicate Interaction(c: Engines.Call) { (IsLocal(c) || IsSignal(c)) && Allowed(c) }

  predicate Enabled(d: DaemonState, m: Move) {
    match m
    case AgentApply(_, _) => !d.due
    case AgentSignal => d.due
    case AgentDrain => true
    case Connect(h) => h !in d.handlers
    case _ => m.h in d.handlers && Fits(d, d.handlers[m.h].phase, m)
  }

  predicate Fits(d: DaemonState, p: Phase, m: Move) {
    match m
    case Greet(_, _) => p.Greeting?
    case Acquire(_) => p.Acquiring?
    case Register(_) => p.Registering?
    case SendAck(_, _) => p.Acknowledging?
    case TakeSnapshot(_) => p.Snapping?
    case SendSnapshot(_, _) => p.Writing?
    case TakeSignal(_) => p.Selecting? && d.slot
    case Interact(_, call) => p.Selecting? && Interaction(call)
    case ReadToken(_, _) => p.Selecting?
    case Confirm(_) => p.Confirming?
    case Leave(_) => p.Selecting?
    case ClearConn(_) => p.Clearing?
    case Release(_) => p.Releasing?
    case _ => false
  }

  function Put(d: DaemonState, h: Conn, x: Handler): DaemonState { d.(handlers := d.handlers[h := x]) }

  /** One move of handler `h`; where a move is not possible nothing happens. */
  ghost function HandlerMove(d: DaemonState, m: Move): DaemonState
    requires EngineOk(d.engine) && Enabled(d, m) && !m.AgentApply? && !m.AgentSignal? && !m.AgentDrain? && !m.Connect?
  {
    var h, x := m.h, d.handlers[m.h];
    match m
    case Greet(_, ok) => Put(d, h, x.(phase := if ok then Acquiring else Gone))
    case Acquire(_) =>
      var (lease, id) := Acquired(d.lease);
      if id.None? then Put(d, h, x.(phase := Gone))
      else Put(d.(lease := lease), h, x.(phase := Registering, clientId := id.value))
    case Register(_) => Put(d.(activeConn := Some(h)), h, x.(phase := Acknowledging))
    case SendAck(_, ok) => Put(d, h, x.(phase := if ok then Snapping else Clearing))
    case TakeSnapshot(_) => Put(d, h, x.(phase := Writing(Present(d.engine))))
    case SendSnapshot(_, ok) =>
      if ok then Put(d, h, x.(phase := Selecting, sent := x.sent + [x.phase.view]))
      else Put(d, h, x.(phase := Clearing))
    case TakeSignal(_) => Put(d.(slot := false), h, x.(phase := Snapping))
    case Interact(_, call) =>
      var (e, reply) := Engines.Step(d.engine, call);
      Put(d.(engine := e), h, x.(phase := if reply.Error? then Selecting else Snapping))
    case ReadToken(_, g) =>
      if g != d.engine.token || !NeedsShowing(d.engine) then d else Put(d, h, x.(phase := Confirming(g)))
    case Confirm(_) =>
      Put(d.(engine := Engines.Step(d.engine, ShowGeneration(x.phase.generation)).0), h, x.(phase := Selecting))
    case Leave(_) => Put(d, h, x.(phase := Clearing))
    case ClearConn(_) =>
      Put(d.(activeConn := Cleared(d.activeConn, h)), h, x.(phase := Releasing))
    case Release(_) =>
      Put(d.(lease := Released(d.lease, x.clientId).0), h, x.(phase := Gone, clientId := 0))
  }

  ghost function Moved(d: DaemonState, m: Move): DaemonState
    requires EngineOk(d.engine)
  {
    if !Enabled(d, m) then d
    else match m
      case AgentApply(op, over) =>
        var (e, reply) := Engines.Step(d.engine, Perform(op, over));
        d.(engine := e, due := reply.Fine?)
      case AgentSignal => d.(slot := true, due := false)
      case AgentDrain => d.(engine := Engines.Step(d.engine, NextEvent).0)
      case Connect(h) => Put(d, h, Handler(Greeting, 0, []))
      case _ => HandlerMove(d, m)
  }

  // ---- what each move keeps ----

  /** The handler owns the lease. */
  predicate Holds(p: Phase) { !p.Greeting? && !p.Acquiring? && !p.Gone? }

  /** ... and its connection is the recorded one. */
  predicate Recorded(p: Phase) { Holds(p) && !p.Registering? && !p.Releasing? }

  /** Everything a renderer draws; the `pending` flag is no part of it. */
  function Drawn(v: View): View { v.(pending := false) }

  /** `v` is what the engine presents now, unless a signal is under way. */
  predicate Current(d: DaemonState, v: View) { d.slot || d.due || Drawn(v) == Drawn(Present(d.engine)) }

  ghost predicate Rising(views: seq<View>, top: nat) {
    && (forall i :: 0 <= i < |views| ==> views[i].renderGeneration <= top)
    && forall i, j :: 0 <= i < j < |views| ==> views[i].renderGeneration <= views[j].renderGeneration
  }

  ghost predicate HandlerOk(d: DaemonState, h: Conn, x: Handler) {
    && (x.clientId != 0 <==> Holds(x.phase))
    && (x.clientId != 0 ==> x.clientId == d.lease.active)
    && (Recorded(x.phase) <==> d.activeConn == Some(h))
    && StreamOk(d, x)
  }

  ghost predicate StreamOk(d: DaemonState, x: Handler) {
    && (if x.phase.Writing?
        then Rising(x.sent + [x.phase.view], d.engine.state.renderGeneration) && Current(d, x.phase.view)
        else Rising(x.sent, d.engine.state.renderGeneration))
    && (x.phase.Selecting? || x.phase.Confirming? ==> x.sent != [] && Current(d, x.sent[|x.sent| - 1]))
  }

  ghost predicate HandlersOk(d: DaemonState) {
    forall h :: h in d.handlers ==> HandlerOk(d, h, d.handlers[h])
  }

  /** A taken lease has exactly one handler, which will give it back. */
  ghost predicate OneHolder(d: DaemonState) {
    && (forall g, h | g in d.handlers && h in d.handlers ::
          d.handlers[g].clientId != 0 && d.handlers[h].clientId != 0 ==> g == h)
    && (d.lease.active != 0 ==> exists h :: h in d.handlers && d.handlers[h].clientId != 0)
    && (d.activeConn.Some? ==> d.activeConn.value in d.handlers && d.handlers[d.activeConn.value].clientId != 0)
  }

  ghost predicate DaemonOk(d: DaemonState) {
    EngineOk(d.engine) && LeaseOk(d.lease) && HandlersOk(d) && OneHolder(d)
  }

  // ---- the engine's part ----

  lemma RenderGrows(e: EngineState, c: Engines.Call)
    requires EngineOk(e)
    ensures Engines.Step(e, c).0.state.renderGeneration >= e.state.renderGeneration
  {
    hide *;
    StepCases(e, c);
    match c {
      case Perform(op, over) => ApplyRender(e, op, over);
      case Publish => PublishExactly(e); PublishedRender(e.state);
      case ShowGeneration(g) => PublishExactly(e); PublishedRender(e.state); ShowCases(e, g);
      case NextEvent => HandedOk(e);
      case _ =>
        if IsLocal(c) {
          LocalIs(e, c);
          InteractedKeeps(e, c);
          GenerationsGrow(e.state, Interacted(e, c));
        } else {
          SignalOk(e, c);
          RaisedIs(e, Signalled(e, c));
        }
    }
  }

  lemma PublishedRender(s: Projection)
    ensures Published(s).renderGeneration == s.renderGeneration
  {
  }

  lemma GenerationsGrow(s: Projection, r: Reconciled)
    requires r.Updated? ==> SameGenerations(s, r.state)
    ensures r.Updated? ==> r.state.renderGeneration >= s.renderGeneration
  {
  }

  lemma RaisedIs(e: EngineState, s: Signal)
    requires EngineOk(e)
    ensures var r := Raised(e, s);
      && r.0 == e.(broker := r.0.broker)
      && (r.1.Error? ==> r.0 == e)
  {
    hide *;
    RaisedCases(e, s);
    if s.Raise? { SendOk(e, s.event); }
  }

  lemma ApplyRender(e: EngineState, op: Operation, over: Code)
    requires EngineOk(e)
    ensures var r := ApplyOp(e, op, over);
      && r.0.state.renderGeneration >= e.state.renderGeneration
      && (!r.1.Fine? ==> r.0 == e.(broker := r.0.broker))
  {
    hide *;
    ApplyCases(e, op, over);
    EmitErrorOk(e, op, over);
    EmitErrorOk(e, op, Backpressure);
    var out := Apply(e.doc, op, e.limits);
    if out.Failed? { EmitErrorOk(e, op, out.code); }
    if out.Applied? {
      InstallCases(e, op, out.doc, out.eff);
      var r := Reconcile(e.state, e.doc, out.doc, op, out.eff);
      if r.Denied? {
        EmitErrorOk(e, op, r.code);
      } else {
        ReconcileCounters(e.state, e.doc, out.doc, op, out.eff);
        AdvancedState(e, out.doc, r.state, out.eff, Commit(Max0(op.opSeq), op.frame));
      }
    }
  }

  lemma AdvancedState(e: EngineState, next: Document, s: Projection, eff: Effect, c: Commit)
    ensures Advanced(e, next, s, eff, c).state == s
  {
  }

  lemma DrawnQueue(e: EngineState, e': EngineState)
    requires e' == e.(broker := e'.broker)
    ensures Drawn(Present(e')) == Drawn(Present(e))
  {
  }

  lemma DrawnPublished(e: EngineState, e': EngineState)
    requires e' == e.(broker := e'.broker, state := Published(e.state), pending := [])
    ensures Drawn(Present(e')) == Drawn(Present(e))
  {
  }

  /** Handing out events, acknowledging a frame and refusing an operation leave the picture alone. */
  lemma DrawnSame(e: EngineState, c: Engines.Call)
    requires EngineOk(e) && (c.NextEvent? || c.ShowGeneration? || (c.Perform? && !Engines.Step(e, c).1.Fine?))
    ensures Drawn(Present(Engines.Step(e, c).0)) == Drawn(Present(e))
  {
    hide *;
    StepCases(e, c);
    var e' := Engines.Step(e, c).0;
    match c {
      case Perform(op, over) => ApplyRender(e, op, over); DrawnQueue(e, e');
      case ShowGeneration(g) =>
        PublishExactly(e);
        ShowCases(e, g);
        if e' != e { DrawnPublished(e, e'); }
      case NextEvent => HandedOk(e); DrawnQueue(e, e');
    }
  }

  /** A refused interaction changes nothing. */
  lemma RefusedSame(e: EngineState, c: Engines.Call)
    requires EngineOk(e) && Interaction(c) && Engines.Step(e, c).1.Error?
    ensures Engines.Step(e, c).0 == e
  {
    IsInteraction(c);
    hide *;
    if IsLocal(c) {
      LocalIs(e, c);
    } else {
      SignalOk(e, c);
      RaisedIs(e, Signalled(e, c));
    }
  }

  lemma IsInteraction(c: Engines.Call)
    requires Interaction(c)
    ensures IsLocal(c) || IsSignal(c)
  {
  }

  // ---- the handlers' part ----

  /** What was current stays current. */
  ghost predicate CurrentKept(d: DaemonState, d': DaemonState) {
    d'.slot || d'.due || (!d.slot && !d.due && Drawn(Present(d'.engine)) == Drawn(Present(d.engine)))
  }

  /** The shared parts change in a way that suits handler `x` of connection `h`. */
  ghost predicate Suits(d: DaemonState, d': DaemonState, h: Conn, x: Handler) {
    && d'.engine.state.renderGeneration >= d.engine.state.renderGeneration
    && (d'.activeConn == Some(h) <==> d.activeConn == Some(h))
    && (Holds(x.phase) ==> d'.lease.active == d.lease.active && CurrentKept(d, d'))
  }

  lemma OtherOk(d: DaemonState, d': DaemonState, h: Conn, x: Handler)
    requires HandlerOk(d, h, x) && Suits(d, d', h, x)
    ensures HandlerOk(d', h, x)
  {
    hide Drawn;
    hide Present;
  }

  /** Handler `h` moved to `x`; the shared parts suit everybody else. */
  lemma OthersOk(d: DaemonState, d': DaemonState, h: Conn, x: Handler)
    requires HandlersOk(d) && d'.handlers == d.handlers[h := x] && HandlerOk(d', h, x)
    requires forall g :: g in d.handlers && g != h ==> Suits(d, d', g, d.handlers[g])
    ensures HandlersOk(d')
  {
    hide HandlerOk;
    hide Suits;
    forall g | g in d'.handlers ensures HandlerOk(d', g, d'.handlers[g]) {
      if g != h { OtherOk(d, d', g, d.handlers[g]); }
    }
  }

  lemma AllSuit(d: DaemonState, d': DaemonState)
    requires HandlersOk(d) && d'.handlers == d.handlers
    requires forall g :: g in d.handlers ==> Suits(d, d', g, d.handlers[g])
    ensures HandlersOk(d')
  {
    hide HandlerOk;
    hide Suits;
    forall g | g in d'.handlers ensures HandlerOk(d', g, d'.handlers[g]) { OtherOk(d, d', g, d.handlers[g]); }
  }

  lemma DaemonParts(d: DaemonState)
    ensures DaemonOk(d) <==> EngineOk(d.engine) && LeaseOk(d.lease) && HandlersOk(d) && OneHolder(d)
  {
    hide EngineOk;
    hide LeaseOk;
    hide HandlersOk;
    hide OneHolder;
  }

  lemma SameHolder(d: DaemonState, d': DaemonState)
    requires OneHolder(d)
    requires d'.lease == d.lease && d'.activeConn == d.activeConn && d'.handlers == d.handlers
    ensures OneHolder(d')
  {
  }

  /** The agent's moves: a change to the picture always leaves a signal on its way. */
  lemma AgentMoveOk(d: DaemonState, m: Move)
    requires DaemonOk(d) && Enabled(d, m) && (m.AgentApply? || m.AgentSignal? || m.AgentDrain?)
    ensures EngineOk(d.engine) && DaemonOk(Moved(d, m))
  {
    hide *;
    DaemonParts(d);
    var d' := Moved(d, m);
    DaemonParts(d');
    AgentShared(d, m);
    SameHolder(d, d');
    AllSuit(d, d');
  }

  lemma AgentShared(d: DaemonState, m: Move)
    requires EngineOk(d.engine) && Enabled(d, m) && (m.AgentApply? || m.AgentSignal? || m.AgentDrain?)
    ensures var d' := Moved(d, m);
      && EngineOk(d'.engine)
      && d' == d.(engine := d'.engine, slot := d'.slot, due := d'.due)
      && forall h, x :: Suits(d, d', h, x)
  {
    AgentIs(d, m);
    hide *;
    if m.AgentApply? {
      var c := Perform(m.op, m.over);
      StepOk(d.engine, c);
      RenderGrows(d.engine, c);
      if !Engines.Step(d.engine, c).1.Fine? { DrawnSame(d.engine, c); }
    } else if m.AgentDrain? {
      StepOk(d.engine, NextEvent);
      RenderGrows(d.engine, NextEvent);
      DrawnSame(d.engine, NextEvent);
    }
    SuitsAll(d, Moved(d, m));
  }

  lemma AgentIs(d: DaemonState, m: Move)
    requires EngineOk(d.engine) && Enabled(d, m) && (m.AgentApply? || m.AgentSignal? || m.AgentDrain?)
    ensures m.AgentApply? ==>
      var (e, reply) := Engines.Step(d.engine, Perform(m.op, m.over));
      !d.due && Moved(d, m) == d.(engine := e, due := reply.Fine?)
    ensures m.AgentSignal? ==> Moved(d, m) == d.(slot := true, due := false)
    ensures m.AgentDrain? ==> Moved(d, m) == d.(engine := Engines.Step(d.engine, NextEvent).0)
  {
    hide EngineOk;
    hide Engines.Step;
    hide HandlerMove;
  }

  lemma SuitsAll(d: DaemonState, d': DaemonState)
    requires d' == d.(engine := d'.engine, slot := d'.slot, due := d'.due)
    requires d'.engine.state.renderGeneration >= d.engine.state.renderGeneration
    requires
      || d'.slot || d'.due
      || (d'.slot == d.slot && d'.due == d.due && Drawn(Present(d'.engine)) == Drawn(Present(d.engine)))
    ensures forall h, x :: Suits(d, d', h, x)
  {
    hide Drawn;
    hide Present;
    hide Holds;
  }

  // ---- moves of a handler without the lease ----

  predicate Outsider(m: Move) { m.Connect? || m.Greet? || m.Acquire? }

  lemma OutsiderMoveOk(d: DaemonState, m: Move)
    requires DaemonOk(d) && Enabled(d, m) && Outsider(m)
    ensures EngineOk(d.engine) && DaemonOk(Moved(d, m))
  {
    assert m.Connect? || m.Greet? || m.Acquire?;
    hide *;
    DaemonParts(d);
    var d' := Moved(d, m);
    DaemonParts(d');
    OutsiderIs(d, m);
    OutsiderShared(d, d', m.h, d'.handlers[m.h]);
    OthersOk(d, d', m.h, d'.handlers[m.h]);
    OutsiderHolder(d, d', m.h);
  }

  lemma OutsiderIs(d: DaemonState, m: Move)
    requires EngineOk(d.engine) && HandlersOk(d) && Enabled(d, m) && (m.Connect? || m.Greet? || m.Acquire?)
    ensures var d' := Moved(d, m);
      && m.h in d'.handlers && Outside(d, d', m.h, d'.handlers[m.h])
      && (m.h in d.handlers ==> d.handlers[m.h].clientId == 0)
  {
    hide *;
    if m.h in d.handlers { Waits(d, m.h); }
    OutsiderPhases(d, m);
    AcquiredId(d.lease);
    match m {
      case Connect(h) => ConnectIs(d, h); OutsideFrom(d, d.lease, h, Handler(Greeting, 0, []));
      case Greet(h, ok) =>
        GreetIs(d, h, ok);
        OutsideFrom(d, d.lease, h, d.handlers[h].(phase := if ok then Acquiring else Gone));
      case Acquire(h) =>
        AcquireIs(d, h);
        var (lease, id) := Acquired(d.lease);
        OutsideFrom(d, lease, h, d.handlers[h].(phase := if id.None? then Gone else Registering,
                                                clientId := if id.None? then 0 else id.value));
    }
  }

  lemma OutsiderPhases(d: DaemonState, m: Move)
    requires Enabled(d, m)
    ensures m.Connect? ==> m.h !in d.handlers
    ensures m.Greet? || m.Acquire? ==> m.h in d.handlers && !Holds(d.handlers[m.h].phase)
  {
  }

  lemma OutsideFrom(d: DaemonState, lease: Lease, h: Conn, x: Handler)
    requires if h in d.handlers
             then !Holds(d.handlers[h].phase) && d.handlers[h].clientId == 0 && x.sent == d.handlers[h].sent
             else x.sent == []
    requires if x.phase.Registering? then (lease, Some(x.clientId)) == Acquired(d.lease)
             else (x.phase.Greeting? || x.phase.Acquiring? || x.phase.Gone?) && x.clientId == 0 && lease == d.lease
    ensures Outside(d, d.(lease := lease, handlers := d.handlers[h := x]), h, x)
  {
    hide Acquired;
  }

  lemma ConnectIs(d: DaemonState, h: Conn)
    requires EngineOk(d.engine) && Enabled(d, Connect(h))
    ensures Moved(d, Connect(h)) == d.(lease := d.lease, handlers := d.handlers[h := Handler(Greeting, 0, [])])
  {
    hide EngineOk;
    hide HandlerMove;
  }

  lemma GreetIs(d: DaemonState, h: Conn, ok: bool)
    requires EngineOk(d.engine) && Enabled(d, Greet(h, ok)) && h in d.handlers
    ensures Moved(d, Greet(h, ok)) == d.(lease := d.lease,
      handlers := d.handlers[h := d.handlers[h].(phase := if ok then Acquiring else Gone)])
  {
    hide EngineOk;
    hide Engines.Step;
  }

  lemma AcquireIs(d: DaemonState, h: Conn)
    requires EngineOk(d.engine) && Enabled(d, Acquire(h)) && h in d.handlers && d.handlers[h].clientId == 0
    ensures var (lease, id) := Acquired(d.lease);
      Moved(d, Acquire(h)) == d.(lease := lease, handlers := d.handlers[h := d.handlers[h].(
        phase := if id.None? then Gone else Registering, clientId := if id.None? then 0 else id.value)])
  {
    AcquiredId(d.lease);
    hide EngineOk;
    hide Engines.Step;
    hide Acquired;
  }

  lemma AcquiredId(l: Lease)
    ensures Acquired(l).1.None? ==> Acquired(l).0 == l
  {
  }

  lemma Waits(d: DaemonState, h: Conn)
    requires HandlersOk(d) && h in d.handlers
    ensures d.handlers[h].clientId != 0 <==> Holds(d.handlers[h].phase)
  {
    assert HandlerOk(d, h, d.handlers[h]);
  }

  /** A handler was added, went on, or got the free lease. */
  ghost predicate Outside(d: DaemonState, d': DaemonState, h: Conn, x: Handler) {
    && d' == d.(lease := d'.lease, handlers := d.handlers[h := x])
    && (if h in d.handlers
        then !Holds(d.handlers[h].phase) && d.handlers[h].clientId == 0 && x.sent == d.handlers[h].sent
        else x.sent == [])
    && (if x.phase.Registering? then (d'.lease, Some(x.clientId)) == Acquired(d.lease)
        else !Holds(x.phase) && x.clientId == 0 && d'.lease == d.lease)
  }

  lemma OutsiderShared(d: DaemonState, d': DaemonState, h: Conn, x: Handler)
    requires LeaseOk(d.lease) && HandlersOk(d) && OneHolder(d) && Outside(d, d', h, x)
    ensures LeaseOk(d'.lease) && HandlerOk(d', h, x) && d'.activeConn == d.activeConn
    ensures if x.clientId == 0 then d'.lease == d.lease else d.lease.active == 0 && d'.lease.active == x.clientId
    ensures forall g :: g in d.handlers && g != h ==> Suits(d, d', g, d.handlers[g])
  {
    if h in d.handlers { assert HandlerOk(d, h, d.handlers[h]); }
    if d.lease.active == 0 { NobodyHolds(d); }
    hide HandlersOk;
    hide Drawn;
    hide Present;
  }

  /** A free lease means that no handler is past acquiring, and no connection is recorded. */
  lemma NobodyHolds(d: DaemonState)
    requires HandlersOk(d) && OneHolder(d) && d.lease.active == 0
    ensures forall g :: g in d.handlers ==> d.handlers[g].clientId == 0 && !Holds(d.handlers[g].phase)
    ensures d.activeConn == None
  {
    forall g | g in d.handlers ensures d.handlers[g].clientId == 0 && !Holds(d.handlers[g].phase) {
      assert HandlerOk(d, g, d.handlers[g]);
    }
  }

  lemma OutsiderHolder(d: DaemonState, d': DaemonState, h: Conn)
    requires OneHolder(d) && HandlersOk(d) && h in d'.handlers && d'.handlers == d.handlers[h := d'.handlers[h]]
    requires h in d.handlers ==> d.handlers[h].clientId == 0
    requires d'.activeConn == d.activeConn
    requires if d'.handlers[h].clientId == 0 then d'.lease == d.lease
             else d.lease.active == 0 && d'.lease.active == d'.handlers[h].clientId
    ensures OneHolder(d')
  {
    if d.lease.active == 0 { NobodyHolds(d); }
    if d'.handlers[h].clientId == 0 && d.lease.active != 0 {
      var g :| g in d.handlers && d.handlers[g].clientId != 0;
      assert g in d'.handlers && d'.handlers[g].clientId != 0;
    }
    hide HandlersOk;
    hide Holds;
  }

  // ---- moves of the handler with the lease ----

  predicate Insider(m: Move) {
    !m.AgentApply? && !m.AgentSignal? && !m.AgentDrain? && !m.Connect? && !m.Greet? && !m.Acquire?
  }

  /** The handler of such a move is the only one that holds anything. */
  lemma Alone(d: DaemonState, h: Conn)
    requires HandlersOk(d) && OneHolder(d) && h in d.handlers && Holds(d.handlers[h].phase)
    ensures d.handlers[h].clientId != 0 && d.lease.active == d.handlers[h].clientId
    ensures forall g :: g in d.handlers && g != h ==>
      d.handlers[g].clientId == 0 && !Holds(d.handlers[g].phase) && d.activeConn != Some(g)
    ensures d.activeConn == if Recorded(d.handlers[h].phase) then Some(h) else None
  {
    assert HandlerOk(d, h, d.handlers[h]);
    forall g | g in d.handlers && g != h
      ensures d.handlers[g].clientId == 0 && !Holds(d.handlers[g].phase) && d.activeConn != Some(g)
    {
      assert HandlerOk(d, g, d.handlers[g]);
    }
  }

  /** What the holder's move does, apart from the engine. */
  ghost predicate Inside(d: DaemonState, d': DaemonState, h: Conn, x: Handler, y: Handler) {
    && d' == d.(engine := d'.engine, slot := d'.slot, lease := d'.lease, activeConn := d'.activeConn,
                handlers := d.handlers[h := y])
    && EngineOk(d'.engine) && d'.engine.state.renderGeneration >= d.engine.state.renderGeneration
    && HandlerOk(d', h, y)
    && d'.activeConn == (if Recorded(y.phase) then Some(h) else None)
    && (if Holds(y.phase) then d'.lease == d.lease && y.clientId == x.clientId
        else d'.lease == d.lease.(active := 0) && y.clientId == 0)
  }

  lemma InsiderMoveOk(d: DaemonState, m: Move)
    requires DaemonOk(d) && Enabled(d, m) && Insider(m)
    ensures EngineOk(d.engine) && DaemonOk(Moved(d, m))
  {
    InsiderPhase(d, m);
    hide *;
    DaemonParts(d);
    var d' := Moved(d, m);
    DaemonParts(d');
    Alone(d, m.h);
    InsiderIs(d, m);
    var y := d'.handlers[m.h];
    InsideOthers(d, d', m.h, y);
    OthersOk(d, d', m.h, y);
    InsideHolder(d, d', m.h, y);
  }

  lemma InsiderPhase(d: DaemonState, m: Move)
    requires Enabled(d, m) && Insider(m)
    ensures m.Register? || m.SendAck? || m.TakeSnapshot? || m.SendSnapshot? || m.TakeSignal? || m.Interact?
      || m.ReadToken? || m.Confirm? || m.Leave? || m.ClearConn? || m.Release?
    ensures m.h in d.handlers && Holds(d.handlers[m.h].phase)
  {
  }

  lemma InsideOthers(d: DaemonState, d': DaemonState, h: Conn, y: Handler)
    requires h in d.handlers && Inside(d, d', h, d.handlers[h], y)
    requires forall g :: g in d.handlers && g != h ==>
      d.handlers[g].clientId == 0 && !Holds(d.handlers[g].phase) && d.activeConn != Some(g)
    ensures d'.handlers == d.handlers[h := y] && EngineOk(d'.engine) && HandlerOk(d', h, y)
    ensures forall g :: g in d.handlers && g != h ==> Suits(d, d', g, d.handlers[g])
  {
    hide EngineOk;
    hide HandlerOk;
    hide Holds;
    hide Recorded;
    hide CurrentKept;
  }

  lemma InsideHolder(d: DaemonState, d': DaemonState, h: Conn, y: Handler)
    requires LeaseOk(d.lease) && h in d.handlers && Inside(d, d', h, d.handlers[h], y)
    requires d.handlers[h].clientId != 0
    requires forall g :: g in d.handlers && g != h ==> d.handlers[g].clientId == 0
    ensures OneHolder(d') && LeaseOk(d'.lease)
  {
    hide *;
    InsideParts(d, d', h, d.handlers[h], y);
    HolderStays(d', h);
    FreedOk(d.lease);
  }

  lemma InsideParts(d: DaemonState, d': DaemonState, h: Conn, x: Handler, y: Handler)
    requires Inside(d, d', h, x, y)
    ensures d'.handlers == d.handlers[h := y] && (d'.activeConn == None || d'.activeConn == Some(h))
    ensures y.clientId == 0 ==> x.clientId == 0 || d'.lease == d.lease.(active := 0)
    ensures y.clientId == 0 ==> d'.activeConn == None
    ensures d'.lease == d.lease || d'.lease == d.lease.(active := 0)
  {
    hide EngineOk;
    hide StreamOk;
  }

  lemma FreedOk(l: Lease)
    requires LeaseOk(l)
    ensures LeaseOk(l.(active := 0))
  {
  }

  lemma HolderStays(d: DaemonState, h: Conn)
    requires h in d.handlers && forall g :: g in d.handlers && g != h ==> d.handlers[g].clientId == 0
    requires d.activeConn == None || (d.activeConn == Some(h) && d.handlers[h].clientId != 0)
    requires d.handlers[h].clientId == 0 ==> d.lease.active == 0
    ensures OneHolder(d)
  {
  }

  /** The holder goes from `x` to `y`, with the new stream in order. */
  lemma InsideFrom(d: DaemonState, d': DaemonState, h: Conn, x: Handler, y: Handler)
    requires HandlerOk(d, h, x) && Holds(x.phase) && x.clientId == d.lease.active
    requires d' == d.(engine := d'.engine, slot := d'.slot, lease := d'.lease, activeConn := d'.activeConn,
                      handlers := d.handlers[h := y])
    requires EngineOk(d'.engine) && d'.engine.state.renderGeneration >= d.engine.state.renderGeneration
    requires StreamOk(d', y)
    requires d'.activeConn == if Recorded(y.phase) then Some(h) else None
    requires if Holds(y.phase) then d'.lease == d.lease && y.clientId == x.clientId
             else d'.lease == d.lease.(active := 0) && y.clientId == 0
    ensures Inside(d, d', h, x, y)
  {
    HandlerStream(d, h, x);
    hide *;
    RecordedHolds(y.phase);
    HandlerFrom(d', h, y);
    InsideJoin(d, d', h, x, y);
  }

  lemma RecordedHolds(p: Phase)
    ensures Recorded(p) ==> Holds(p)
    ensures p.Acknowledging? || p.Snapping? || p.Selecting? || p.Confirming? ==> Recorded(p)
  {
  }

  lemma HandlerFrom(d: DaemonState, h: Conn, y: Handler)
    requires y.clientId != 0 <==> Holds(y.phase)
    requires y.clientId != 0 ==> y.clientId == d.lease.active
    requires StreamOk(d, y) && d.activeConn == if Recorded(y.phase) then Some(h) else None
    ensures HandlerOk(d, h, y)
  {
    hide StreamOk;
    hide Holds;
    hide Recorded;
  }

  lemma InsideJoin(d: DaemonState, d': DaemonState, h: Conn, x: Handler, y: Handler)
    requires d' == d.(engine := d'.engine, slot := d'.slot, lease := d'.lease, activeConn := d'.activeConn,
                      handlers := d.handlers[h := y])
    requires EngineOk(d'.engine) && d'.engine.state.renderGeneration >= d.engine.state.renderGeneration
    requires HandlerOk(d', h, y)
    requires d'.activeConn == if Recorded(y.phase) then Some(h) else None
    requires if Holds(y.phase) then d'.lease == d.lease && y.clientId == x.clientId
             else d'.lease == d.lease.(active := 0) && y.clientId == 0
    ensures Inside(d, d', h, x, y)
  {
    hide EngineOk;
    hide HandlerOk;
    hide Holds;
    hide Recorded;
  }

  lemma Quieter(d: DaemonState, d': DaemonState, x: Handler, y: Handler)
    requires StreamOk(d, x) && y.sent == x.sent
    requires !y.phase.Writing? && !y.phase.Selecting? && !y.phase.Confirming?
    requires d'.engine.state.renderGeneration >= d.engine.state.renderGeneration
    ensures StreamOk(d', y)
  {
    hide Current;
    if x.phase.Writing? {
      var all := x.sent + [x.phase.view];
      assert forall i :: 0 <= i < |x.sent| ==> all[i] == x.sent[i];
    }
  }

  lemma InsiderIs(d: DaemonState, m: Move)
    requires EngineOk(d.engine) && HandlersOk(d) && Enabled(d, m) && Insider(m)
    requires m.h in d.handlers && Holds(d.handlers[m.h].phase) && d.handlers[m.h].clientId == d.lease.active
    requires d.activeConn == if Recorded(d.handlers[m.h].phase) then Some(m.h) else None
    ensures var d' := Moved(d, m);
      m.h in d'.handlers && Inside(d, d', m.h, d.handlers[m.h], d'.handlers[m.h])
  {
    InsiderPhase(d, m);
    assert HandlerOk(d, m.h, d.handlers[m.h]);
    hide *;
    if m.Interact? {
      InteractInside(d, m);
    } else if m.Confirm? {
      ConfirmInside(d, m);
    } else if m.SendSnapshot? || m.TakeSnapshot? || m.ReadToken? {
      StreamInside(d, m);
    } else {
      QuietInside(d, m);
    }
  }

  lemma QuietInside(d: DaemonState, m: Move)
    requires EngineOk(d.engine) && Enabled(d, m)
    requires m.Register? || m.SendAck? || m.TakeSignal? || m.Leave? || m.ClearConn? || m.Release?
    requires m.h in d.handlers && HandlerOk(d, m.h, d.handlers[m.h])
    requires Holds(d.handlers[m.h].phase) && d.handlers[m.h].clientId == d.lease.active
    requires d.activeConn == if Recorded(d.handlers[m.h].phase) then Some(m.h) else None
    ensures var d' := Moved(d, m);
      m.h in d'.handlers && Inside(d, d', m.h, d.handlers[m.h], d'.handlers[m.h])
  {
    hide *;
    var h, x, d' := m.h, d.handlers[m.h], Moved(d, m);
    HandlerStream(d, h, x);
    QuietIs(d, m);
    HandlerStream(d, h, x);
    var y := d'.handlers[h];
    Quieter(d, d', x, y);
    InsideFrom(d, d', h, x, y);
  }

  lemma HandlerStream(d: DaemonState, h: Conn, x: Handler)
    requires HandlerOk(d, h, x)
    ensures StreamOk(d, x)
    ensures x.clientId != 0 <==> Holds(x.phase)
  {
    hide StreamOk;
    hide Holds;
  }

  lemma QuietIs(d: DaemonState, m: Move)
    requires EngineOk(d.engine) && Enabled(d, m)
    requires m.Register? || m.SendAck? || m.TakeSignal? || m.Leave? || m.ClearConn? || m.Release?
    requires m.h in d.handlers && Holds(d.handlers[m.h].phase) && d.handlers[m.h].clientId == d.lease.active != 0
    requires d.activeConn == if Recorded(d.handlers[m.h].phase) then Some(m.h) else None
    ensures var d', h, x := Moved(d, m), m.h, d.handlers[m.h];
      && h in d'.handlers
      && var y := d'.handlers[h];
      && d' == d.(slot := d'.slot, lease := d'.lease, activeConn := d'.activeConn, handlers := d.handlers[h := y])
      && y.sent == x.sent && !y.phase.Writing? && !y.phase.Selecting? && !y.phase.Confirming?
      && d'.activeConn == (if Recorded(y.phase) then Some(h) else None)
      && (if Holds(y.phase) then d'.lease == d.lease && y.clientId == x.clientId
          else d'.lease == d.lease.(active := 0) && y.clientId == 0)
  {
    hide EngineOk;
    hide Engines.Step;
  }

  lemma StreamInside(d: DaemonState, m: Move)
    requires EngineOk(d.engine) && Enabled(d, m) && (m.SendSnapshot? || m.TakeSnapshot? || m.ReadToken?)
    requires m.h in d.handlers && HandlerOk(d, m.h, d.handlers[m.h])
    requires Holds(d.handlers[m.h].phase) && d.handlers[m.h].clientId == d.lease.active
    requires d.activeConn == if Recorded(d.handlers[m.h].phase) then Some(m.h) else None
    ensures var d' := Moved(d, m);
      m.h in d'.handlers && Inside(d, d', m.h, d.handlers[m.h], d'.handlers[m.h])
  {
    hide *;
    var h, x, d' := m.h, d.handlers[m.h], Moved(d, m);
    HandlerStream(d, h, x);
    StreamIs(d, m);
    HandlerStream(d, h, x);
    var y := d'.handlers[h];
    StreamNext(d, d', x, y);
    InsideFrom(d, d', h, x, y);
  }

  /** A snapshot is taken, or written, or a write failed, or a token is compared. */
  ghost predicate StreamStep(d: DaemonState, x: Handler, y: Handler) {
    || (y.phase == Writing(Present(d.engine)) && y.sent == x.sent && !x.phase.Writing?)
    || (x.phase.Writing? && y.phase == Selecting && y.sent == x.sent + [x.phase.view])
    || (x.phase.Writing? && y.phase == Clearing && y.sent == x.sent)
    || (x.phase == Selecting && (y.phase.Selecting? || y.phase.Confirming?) && y.sent == x.sent)
  }

  lemma StreamNext(d: DaemonState, d': DaemonState, x: Handler, y: Handler)
    requires StreamOk(d, x) && StreamStep(d, x, y)
    requires d'.engine == d.engine && d'.slot == d.slot && d'.due == d.due
    ensures StreamOk(d', y)
  {
    if y.phase == Clearing {
      Quieter(d, d', x, y);
    } else if y.phase.Writing? {
      assert Present(d.engine).renderGeneration == d.engine.state.renderGeneration;
      hide Present;
      hide Drawn;
    }
  }

  lemma StreamIs(d: DaemonState, m: Move)
    requires EngineOk(d.engine) && Enabled(d, m) && (m.SendSnapshot? || m.TakeSnapshot? || m.ReadToken?)
    requires m.h in d.handlers && Recorded(d.handlers[m.h].phase) ==> d.activeConn == Some(m.h)
    ensures var d', h := Moved(d, m), m.h;
      && h in d.handlers && h in d'.handlers
      && var x, y := d.handlers[h], d'.handlers[h];
      && d' == d.(handlers := d.handlers[h := y])
      && y.clientId == x.clientId && Recorded(x.phase) && Recorded(y.phase) && Holds(y.phase)
      && StreamStep(d, x, y)
  {
    hide EngineOk;
    hide Engines.Step;
    hide Present;
  }

  lemma InteractInside(d: DaemonState, m: Move)
    requires EngineOk(d.engine) && Enabled(d, m) && m.Interact?
    requires m.h in d.handlers && HandlerOk(d, m.h, d.handlers[m.h])
    requires Holds(d.handlers[m.h].phase) && d.handlers[m.h].clientId == d.lease.active
    requires d.activeConn == if Recorded(d.handlers[m.h].phase) then Some(m.h) else None
    ensures var d' := Moved(d, m);
      m.h in d'.handlers && Inside(d, d', m.h, d.handlers[m.h], d'.handlers[m.h])
  {
    hide *;
    var h, x, d' := m.h, d.handlers[m.h], Moved(d, m);
    RecordedHolds(Selecting);
    RecordedHolds(Snapping);
    RecordedHolds(x.phase);
    InteractIs(d, m);
    HandlerStream(d, h, x);
    var y := d'.handlers[h];
    StepOk(d.engine, m.call);
    RenderGrows(d.engine, m.call);
    if Engines.Step(d.engine, m.call).1.Error? {
      RefusedSame(d.engine, m.call);
      assert y == x && d'.engine == d.engine;
      SameStream(d, d', x);
    } else {
      Quieter(d, d', x, y);
    }
    InsideFrom(d, d', h, x, y);
  }

  lemma SameStream(d: DaemonState, d': DaemonState, x: Handler)
    requires StreamOk(d, x) && d'.engine == d.engine && d'.slot == d.slot && d'.due == d.due
    ensures StreamOk(d', x)
  {
  }

  lemma InteractIs(d: DaemonState, m: Move)
    requires EngineOk(d.engine) && Enabled(d, m) && m.Interact? && m.h in d.handlers
    ensures var h, x := m.h, d.handlers[m.h];
      var (e, reply) := Engines.Step(d.engine, m.call);
      && x.phase == Selecting && Interaction(m.call)
      && Moved(d, m) == d.(engine := e,
                           handlers := d.handlers[h := x.(phase := if reply.Error? then Selecting else Snapping)])
  {
    hide EngineOk;
    hide Engines.Step;
    hide Interaction;
  }

  lemma ConfirmInside(d: DaemonState, m: Move)
    requires EngineOk(d.engine) && Enabled(d, m) && m.Confirm?
    requires m.h in d.handlers && HandlerOk(d, m.h, d.handlers[m.h])
    requires Holds(d.handlers[m.h].phase) && d.handlers[m.h].clientId == d.lease.active
    requires d.activeConn == if Recorded(d.handlers[m.h].phase) then Some(m.h) else None
    ensures var d' := Moved(d, m);
      m.h in d'.handlers && Inside(d, d', m.h, d.handlers[m.h], d'.handlers[m.h])
  {
    hide *;
    var h, x, d' := m.h, d.handlers[m.h], Moved(d, m);
    RecordedHolds(Selecting);
    RecordedHolds(Snapping);
    RecordedHolds(x.phase);
    ConfirmIs(d, m);
    HandlerStream(d, h, x);
    var y, c := d'.handlers[h], ShowGeneration(x.phase.generation);
    StepOk(d.engine, c);
    RenderGrows(d.engine, c);
    DrawnSame(d.engine, c);
    ConfirmStream(d, d', x, y);
    InsideFrom(d, d', h, x, y);
  }

  lemma ConfirmIs(d: DaemonState, m: Move)
    requires EngineOk(d.engine) && Enabled(d, m) && m.Confirm? && m.h in d.handlers
    ensures var h, x := m.h, d.handlers[m.h];
      && x.phase.Confirming?
      && Moved(d, m) ==
        d.(engine := Engines.Step(d.engine, ShowGeneration(x.phase.generation)).0,
           handlers := d.handlers[h := x.(phase := Selecting)])
  {
    hide EngineOk;
    hide Engines.Step;
  }

  lemma ConfirmStream(d: DaemonState, d': DaemonState, x: Handler, y: Handler)
    requires StreamOk(d, x) && x.phase.Confirming? && y == x.(phase := Selecting)
    requires d'.slot == d.slot && d'.due == d.due && Drawn(Present(d'.engine)) == Drawn(Present(d.engine))
    requires d'.engine.state.renderGeneration >= d.engine.state.renderGeneration
    ensures StreamOk(d', y)
  {
    hide Drawn;
    hide Present;
  }
}

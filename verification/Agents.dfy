/** What the daemon does with the agent's envelopes (daemon/agent.go), and what a stream of them can do. */
module Agents {
  import opened Sequences
  import opened Protocol
  import opened Documents
  import opened Broker
  import opened Engines
  import opened EngineLaws
  import opened EngineMethods
  import opened Sessions

  /** A payload after strict decoding. */
  datatype Decoded<T> = Malformed(code: Code) | Decoded(value: T)

  datatype Body =
    | HelloBody(hello: Decoded<Hello>)
    | OperationBody(op: Decoded<Operation>)
    | TelemetryBody
    | OtherBody

  /** An empty `session` is not checked; `over` is the limit the validator names should several be exceeded. */
  datatype Envelope = Envelope(session: string, number: nat, body: Body, over: Code)

  /** The daemon as the agent sees it; `signal` is the one-slot update channel. */
  datatype AgentState = AgentState(session: SessionState, engine: EngineState, signal: bool)

  datatype Answer = Nothing | Failure(code: Code) | Welcome(ack: HelloAck) | Crash

  /** An admitted operation: it is decoded, checked against its envelope and handed to the engine. */
  ghost function Executed(a: AgentState, env: Envelope): (AgentState, Answer)
    requires EngineOk(a.engine) && env.body.OperationBody?
  {
    match env.body.op
    case Malformed(code) => (a, Failure(code))
    case Decoded(op) =>
      if op.opSeq != env.number then (a, Failure(SequenceMismatch))
      else
        var (after, reply) := ApplyOp(a.engine, op, env.over);
        if reply.Error? then (a.(engine := after), Failure(reply.code))
        else if reply.Halted? then (a.(engine := after), Crash)
        else (a.(engine := after, signal := true), Nothing)
  }

  ghost function Handle(a: AgentState, env: Envelope): (AgentState, Answer)
    requires EngineOk(a.engine)
  {
    if env.session != "" && env.session != a.session.id then (a, Failure(SessionMismatch))
    else match env.body
      case HelloBody(Malformed(code)) => (a, Failure(code))
      case HelloBody(Decoded(h)) =>
        var (s, r) := Negotiation(a.session, h);
        (a.(session := s), match r case Refused(code) => Failure(code) case Agreed(ack) => Welcome(ack))
      case OperationBody(_) =>
        var (s, r) := Admit(a.session, env.number);
        var b := a.(session := s);
        (match r
         case Barred(code) => (b, Failure(code))
         case Duplicate => (b, Nothing)
         case Next => Executed(b, env))
      case TelemetryBody => (a, Nothing)
      case OtherBody => (a, Failure(UnsupportedKind))
  }

  lemma HandleOk(a: AgentState, env: Envelope)
    requires EngineOk(a.engine)
    ensures EngineOk(Handle(a, env).0.engine)
  {
    hide EngineOk;
    hide ApplyOp;
    if env.body.OperationBody? && env.body.op.Decoded? { ApplyOk(a.engine, env.body.op.value, env.over); }
    hide Admit;
    hide Negotiation;
  }

  /** The session admits the envelope's number. */
  predicate Admits(a: AgentState, env: Envelope) {
    && (env.session == "" || env.session == a.session.id)
    && env.body.OperationBody? && Admit(a.session, env.number).1.Next?
  }

  /** A well-formed operation that names its envelope's number. */
  predicate Carries(env: Envelope) {
    env.body.OperationBody? && env.body.op.Decoded? && env.body.op.value.opSeq == env.number
  }

  /** The envelope's operation is handed to the engine, which may still refuse it. */
  predicate Reaches(a: AgentState, env: Envelope) { Admits(a, env) && Carries(env) }

  /** Envelopes whose numbers were admitted, and those whose operations reached the engine. */
  datatype Log = Log(admitted: seq<Envelope>, reached: seq<Envelope>)

  const NO_LOG := Log([], [])

  function Logged(a: AgentState, l: Log, env: Envelope): Log {
    Log(if Admits(a, env) then l.admitted + [env] else l.admitted,
        if Reaches(a, env) then l.reached + [env] else l.reached)
  }

  ghost function Follow(a: AgentState, envs: seq<Envelope>): (r: AgentState)
    requires EngineOk(a.engine)
    ensures EngineOk(r.engine)
    decreases |envs|
  {
    hide *;
    if envs == [] then a
    else
      HandleOk(a, envs[0]);
      Follow(Handle(a, envs[0]).0, envs[1..])
  }

  ghost function FollowLog(a: AgentState, l: Log, envs: seq<Envelope>): Log
    requires EngineOk(a.engine)
    decreases |envs|
  {
    hide *;
    if envs == [] then l
    else
      HandleOk(a, envs[0]);
      FollowLog(Handle(a, envs[0]).0, Logged(a, l, envs[0]), envs[1..])
  }

  lemma FollowCases(a: AgentState, l: Log, envs: seq<Envelope>)
    requires EngineOk(a.engine)
    ensures envs == [] ==> Follow(a, envs) == a && FollowLog(a, l, envs) == l
    ensures envs != [] ==>
      && EngineOk(Handle(a, envs[0]).0.engine)
      && Follow(a, envs) == Follow(Handle(a, envs[0]).0, envs[1..])
      && FollowLog(a, l, envs) == FollowLog(Handle(a, envs[0]).0, Logged(a, l, envs[0]), envs[1..])
  {
    hide EngineOk;
    hide Handle;
    hide Logged;
    if envs != [] { HandleOk(a, envs[0]); }
  }

  // ---- order ----

  /** The envelopes that carry an operation, in order. */
  function Carrying(envs: seq<Envelope>): seq<Envelope> {
    if envs == [] then []
    else
      var last := envs[|envs| - 1];
      Carrying(envs[..|envs| - 1]) + if Carries(last) then [last] else []
  }

  function Numbers(envs: seq<Envelope>): seq<nat> {
    seq(|envs|, i requires 0 <= i < |envs| => envs[i].number)
  }

  /** The numbers are 1, 2, 3, ... */
  predicate NumberedOn(envs: seq<Envelope>) { forall i :: 0 <= i < |envs| ==> envs[i].number == i + 1 }

  /** The numbers admitted are 1, 2, ..., and what reached the engine is what these carry, no more and no less. */
  ghost predicate InOrder(s: SessionState, l: Log) {
    && |l.admitted| + 1 == s.expected
    && NumberedOn(l.admitted)
    && l.reached == Carrying(l.admitted)
  }

  /** How a step changes the session, and when it touches the engine at all. */
  lemma HandleSession(a: AgentState, env: Envelope)
    requires EngineOk(a.engine)
    ensures var s := Handle(a, env).0.session;
      && s.id == a.session.id
      && s.expected == (if Admits(a, env) then a.session.expected + 1 else a.session.expected)
      && (Admits(a, env) ==> env.number == a.session.expected)
      && (a.session.phase == Closed ==> s.phase == Closed)
      && (!Reaches(a, env) ==> Handle(a, env).0.engine == a.engine && Handle(a, env).0.signal == a.signal)
      && (Reaches(a, env) ==>
            Admits(a, env) && Carries(env)
            && Handle(a, env).0.engine == ApplyOp(a.engine, env.body.op.value, env.over).0)
  {
    hide EngineOk;
    hide ApplyOp;
    hide ValidateHello;
    hide Shared;
  }

  lemma LoggedOrder(a: AgentState, l: Log, env: Envelope)
    requires EngineOk(a.engine) && InOrder(a.session, l)
    ensures InOrder(Handle(a, env).0.session, Logged(a, l, env))
  {
    hide *;
    HandleSession(a, env);
    LoggedIs(a, l, env);
    OrderKept(a.session, Handle(a, env).0.session, l, env, Admits(a, env));
  }

  lemma LoggedIs(a: AgentState, l: Log, env: Envelope)
    ensures Logged(a, l, env) ==
      Log(if Admits(a, env) then l.admitted + [env] else l.admitted,
          if Admits(a, env) && Carries(env) then l.reached + [env] else l.reached)
  {
    hide Admits;
    hide Carries;
  }

  lemma OrderKept(s: SessionState, s': SessionState, l: Log, env: Envelope, admitted: bool)
    requires InOrder(s, l) && s'.expected == if admitted then s.expected + 1 else s.expected
    requires admitted ==> env.number == s.expected
    ensures InOrder(s', Log(if admitted then l.admitted + [env] else l.admitted,
                            if admitted && Carries(env) then l.reached + [env] else l.reached))
  {
    CarryingSnoc(l.admitted, env);
    hide Carries;
    hide Carrying;
  }

  lemma CarryingSnoc(envs: seq<Envelope>, env: Envelope)
    ensures Carrying(envs + [env]) == if Carries(env) then Carrying(envs) + [env] else Carrying(envs)
  {
    assert (envs + [env])[..|envs|] == envs;
    assert Carrying(envs) + [] == Carrying(envs);
    hide Carries;
  }

  /**
   Whatever the agent sends: the admitted sequence numbers are exactly 1, 2, 3, ... without a gap,
   and operations reach the engine in strictly increasing order, so none twice.
   */
  lemma {:induction false} FollowOrder(a: AgentState, l: Log, envs: seq<Envelope>)
    requires EngineOk(a.engine) && InOrder(a.session, l)
    ensures InOrder(Follow(a, envs).session, FollowLog(a, l, envs))
    decreases |envs|
  {
    hide *;
    FollowCases(a, l, envs);
    if envs != [] {
      LoggedOrder(a, l, envs[0]);
      FollowOrder(Handle(a, envs[0]).0, Logged(a, l, envs[0]), envs[1..]);
    }
  }

  // ---- when the numbers that reach the engine are contiguous ----

  predicate AllCarry(envs: seq<Envelope>) { forall i :: 0 <= i < |envs| ==> Carries(envs[i]) }

  predicate AllBelow(envs: seq<Envelope>, bound: nat) {
    forall i :: 0 <= i < |envs| ==> 0 < envs[i].number < bound
  }

  /** The numbers are below `bound` and grow. */
  predicate Growing(envs: seq<Envelope>, bound: nat) {
    && AllBelow(envs, bound)
    && forall i, j :: 0 <= i < j < |envs| ==> envs[i].number < envs[j].number
  }

  lemma GrowingSnoc(envs: seq<Envelope>, bound: nat, env: Envelope)
    requires Growing(envs, bound) && env.number == bound > 0
    ensures Growing(envs + [env], bound + 1) && Growing(envs, bound + 1)
  {
  }

  lemma AllCarrySnoc(envs: seq<Envelope>, env: Envelope)
    ensures AllCarry(envs + [env]) <==> AllCarry(envs) && Carries(env)
  {
    hide Carries;
    var all := envs + [env];
    assert all[|envs|] == env;
    if AllCarry(all) {
      forall i | 0 <= i < |envs| ensures Carries(envs[i]) { assert all[i] == envs[i]; }
    }
  }

  /** Those that reach the engine are some of the admitted, in their order: all of them, or fewer. */
  lemma {:induction false} CarryingFacts(envs: seq<Envelope>)
    requires NumberedOn(envs)
    ensures var c := Carrying(envs);
      && AllCarry(c) && |c| <= |envs| && Growing(c, |envs| + 1)
      && (|c| == |envs| <==> AllCarry(envs)) && (AllCarry(envs) ==> c == envs)
    decreases |envs|
  {
    hide *;
    if envs == [] {
      NothingCarried();
    } else {
      var front, last := envs[..|envs| - 1], envs[|envs| - 1];
      NumberedFront(envs);
      CarryingFacts(front);
      assert envs == front + [last];
      CarryingSnoc(front, last);
      AllCarrySnoc(front, last);
      AllCarrySnoc(Carrying(front), last);
      GrowingSnoc(Carrying(front), |envs|, last);
    }
  }

  lemma NumberedFront(envs: seq<Envelope>)
    requires NumberedOn(envs) && envs != []
    ensures NumberedOn(envs[..|envs| - 1]) && envs[|envs| - 1].number == |envs|
  {
  }

  lemma NothingCarried()
    ensures Carrying([]) == [] && AllCarry([]) && Growing([], 1)
  {
  }

  lemma InOrderNumbers(s: SessionState, l: Log)
    requires InOrder(s, l)
    ensures NumberedOn(l.admitted)
    ensures Numbers(l.reached) == Numbers(l.admitted) <==> AllCarry(l.admitted)
  {
    CarryingFacts(l.admitted);
    hide AllCarry;
    hide Carrying;
    hide Growing;
    SameNumbers(l.reached, l.admitted);
  }

  lemma SameNumbers(a: seq<Envelope>, b: seq<Envelope>)
    ensures a == b ==> Numbers(a) == Numbers(b)
    ensures |a| != |b| ==> Numbers(a) != Numbers(b)
  {
    assert |Numbers(a)| == |a| && |Numbers(b)| == |b|;
  }

  // ---- the engine is what these operations make of it ----

  lemma LastCarries(envs: seq<Envelope>)
    requires AllCarry(envs) && envs != []
    ensures AllCarry(envs[..|envs| - 1])
    ensures var last := envs[|envs| - 1]; last.body.OperationBody? && last.body.op.Decoded?
  {
  }

  ghost function Replay(e: EngineState, envs: seq<Envelope>): (r: EngineState)
    requires EngineOk(e) && AllCarry(envs)
    ensures EngineOk(r)
    decreases |envs|
  {
    hide *;
    if envs == [] then e
    else
      LastCarries(envs);
      var last := envs[|envs| - 1];
      var before := Replay(e, envs[..|envs| - 1]);
      ApplyOk(before, last.body.op.value, last.over);
      ApplyOp(before, last.body.op.value, last.over).0
  }

  lemma ItCarries(env: Envelope)
    ensures Carries(env) <==>
      env.body.OperationBody? && env.body.op.Decoded? && env.body.op.value.opSeq == env.number
  {
  }

  lemma ReplaySnoc(e: EngineState, envs: seq<Envelope>, env: Envelope)
    requires EngineOk(e) && AllCarry(envs) && Carries(env)
    ensures AllCarry(envs + [env])
    ensures Replay(e, envs + [env]) == ApplyOp(Replay(e, envs), env.body.op.value, env.over).0
  {
    hide EngineOk;
    hide ApplyOp;
    hide Carries;
    var all := envs + [env];
    assert all[..|all| - 1] == envs && all[|all| - 1] == env;
    ItCarries(env);
  }

  ghost predicate Replays(e: EngineState, l: Log, a: AgentState) {
    && EngineOk(e) && AllCarry(l.reached)
    && a.engine == Replay(e, l.reached)
  }

  lemma LoggedReplays(e: EngineState, a: AgentState, l: Log, env: Envelope)
    requires EngineOk(a.engine) && Replays(e, l, a)
    ensures Replays(e, Logged(a, l, env), Handle(a, env).0)
  {
    HandleSession(a, env);
    if Reaches(a, env) { ReplaySnoc(e, l.reached, env); }
    hide EngineOk;
    hide Handle;
    hide Admit;
    hide Replay;
    hide ApplyOp;
  }

  lemma {:induction false} FollowReplays(e: EngineState, a: AgentState, l: Log, envs: seq<Envelope>)
    requires EngineOk(a.engine) && Replays(e, l, a)
    ensures Replays(e, FollowLog(a, l, envs), Follow(a, envs))
    decreases |envs|
  {
    hide *;
    FollowCases(a, l, envs);
    if envs != [] {
      LoggedReplays(e, a, l, envs[0]);
      FollowReplays(e, Handle(a, envs[0]).0, Logged(a, l, envs[0]), envs[1..]);
    }
  }

  function NewAgent(id: string, configured: Limits): AgentState {
    AgentState(NewSession(id, configured), NewEngine(configured, EffectiveLimits(configured).maxPendingEvents), false)
  }

  /**
   For every stream of envelopes to a new daemon: the admitted numbers are 1, 2, 3, ..., exactly the
   admitted envelopes that carry an operation reach the engine, in order and so none twice, and the
   engine is what applying these operations makes of the new one.
   */
  lemma StreamOrder(id: string, configured: Limits, envs: seq<Envelope>)
    requires DocumentBytes(NewDocument().nodes) <= EffectiveLimits(configured).maxDocumentBytes
    ensures var a := NewAgent(id, configured);
      && EngineOk(a.engine)
      && InOrder(Follow(a, envs).session, FollowLog(a, NO_LOG, envs))
      && Replays(a.engine, FollowLog(a, NO_LOG, envs), Follow(a, envs))
  {
    hide *;
    var a := NewAgent(id, configured);
    NewAgentParts(id, configured);
    NewOk(configured, EffectiveLimits(configured).maxPendingEvents);
    EmptyReplays(a);
    FollowOrder(a, NO_LOG, envs);
    FollowReplays(a.engine, a, NO_LOG, envs);
  }

  lemma NewAgentParts(id: string, configured: Limits)
    ensures var a := NewAgent(id, configured);
      && InOrder(a.session, NO_LOG) && a.session.phase == Fresh && a.session.expected == 1
      && a.engine == NewEngine(configured, EffectiveLimits(configured).maxPendingEvents)
  {
    hide EffectiveLimits;
    hide NewEngine;
  }

  lemma EmptyReplays(a: AgentState)
    requires EngineOk(a.engine)
    ensures Replays(a.engine, NO_LOG, a)
  {
    hide EngineOk;
  }

  /**
   The numbers that reach the engine are exactly those admitted, 1, 2, 3, ... without a gap, if and
   only if every admitted envelope carries a well-formed operation with the envelope's own number.
   */
  lemma ContiguousExactly(id: string, configured: Limits, envs: seq<Envelope>)
    requires DocumentBytes(NewDocument().nodes) <= EffectiveLimits(configured).maxDocumentBytes
    ensures EngineOk(NewAgent(id, configured).engine)
    ensures var a := NewAgent(id, configured);
      var l := FollowLog(a, NO_LOG, envs);
      && Replays(a.engine, l, Follow(a, envs))
      && NumberedOn(l.admitted)
      && (Numbers(l.reached) == Numbers(l.admitted) <==> AllCarry(l.admitted))
  {
    hide *;
    StreamOrder(id, configured, envs);
    var a := NewAgent(id, configured);
    InOrderNumbers(Follow(a, envs).session, FollowLog(a, NO_LOG, envs));
  }

  // ---- what a sender gets that numbers its operations ----

  predicate Addressed(id: string, env: Envelope) { env.session == "" || env.session == id }

  /** A hello the new session accepts. */
  predicate Greets(id: string, configured: Limits, hello: Envelope) {
    && Addressed(id, hello) && hello.body.HelloBody? && hello.body.hello.Decoded?
    && Negotiation(NewSession(id, configured), hello.body.hello.value).1.Agreed?
  }

  /** Operation envelopes for this session, numbered on from `start`. */
  predicate NumberedFrom(id: string, start: nat, ops: seq<Envelope>) {
    forall i :: 0 <= i < |ops| ==> Addressed(id, ops[i]) && ops[i].body.OperationBody? && ops[i].number == start + i
  }

  function UpTo(n: nat): seq<nat> { seq(n, i => i + 1) }

  lemma NextAdmitted(a: AgentState, l: Log, env: Envelope)
    requires EngineOk(a.engine) && a.session.phase == Ready && Addressed(a.session.id, env)
    requires env.body.OperationBody? && env.number == a.session.expected > 0
    ensures Handle(a, env).0.session == a.session.(expected := a.session.expected + 1)
    ensures Logged(a, l, env).admitted == l.admitted + [env]
  {
    hide EngineOk;
    hide ApplyOp;
    hide Carries;
  }

  lemma NumberedCons(id: string, start: nat, ops: seq<Envelope>)
    requires NumberedFrom(id, start, ops) && ops != []
    ensures Addressed(id, ops[0]) && ops[0].body.OperationBody? && ops[0].number == start
    ensures NumberedFrom(id, start + 1, ops[1..])
  {
  }

  lemma {:induction false} NumberedAdmitted(a: AgentState, l: Log, ops: seq<Envelope>)
    requires EngineOk(a.engine) && a.session.phase == Ready && a.session.expected > 0
    requires NumberedFrom(a.session.id, a.session.expected, ops)
    ensures FollowLog(a, l, ops).admitted == l.admitted + ops
    ensures Follow(a, ops).session == a.session.(expected := a.session.expected + |ops|)
    decreases |ops|
  {
    hide *;
    FollowCases(a, l, ops);
    if ops == [] {
      ConcatNil(l.admitted);
    } else {
      NumberedCons(a.session.id, a.session.expected, ops);
      NextAdmitted(a, l, ops[0]);
      NumberedAdmitted(Handle(a, ops[0]).0, Logged(a, l, ops[0]), ops[1..]);
      ConcatAssoc(l.admitted, [ops[0]], ops[1..]);
      assert [ops[0]] + ops[1..] == ops;
    }
  }

  lemma Greeted(id: string, configured: Limits, hello: Envelope)
    requires EngineOk(NewAgent(id, configured).engine) && Greets(id, configured, hello)
    ensures var a := NewAgent(id, configured);
      var b := Handle(a, hello).0;
      && b.engine == a.engine && b.signal == a.signal
      && b.session.id == id && b.session.phase == Ready && b.session.expected == 1
      && Logged(a, NO_LOG, hello) == NO_LOG
  {
    hide EngineOk;
    hide ValidateHello;
    hide Shared;
    hide Sort;
    hide NewEngine;
    hide EffectiveLimits;
  }

  /**
   After an accepted hello, operation envelopes numbered 1, 2, ..., n are all admitted; they reach the
   engine as 1, 2, ..., n if and only if each of them carries an operation with its own number.
   */
  lemma SenderStream(id: string, configured: Limits, hello: Envelope, ops: seq<Envelope>)
    requires DocumentBytes(NewDocument().nodes) <= EffectiveLimits(configured).maxDocumentBytes
    requires Greets(id, configured, hello) && NumberedFrom(id, 1, ops)
    ensures EngineOk(NewAgent(id, configured).engine)
    ensures var a := NewAgent(id, configured);
      var l, r := FollowLog(a, NO_LOG, [hello] + ops), Follow(a, [hello] + ops);
      && l == Log(ops, Carrying(ops)) && Replays(a.engine, l, r)
      && r.session.phase == Ready && r.session.expected == |ops| + 1
      && (Numbers(l.reached) == UpTo(|ops|) <==> AllCarry(ops))
  {
    hide *;
    var a := NewAgent(id, configured);
    ContiguousExactly(id, configured, [hello] + ops);
    StreamOrder(id, configured, [hello] + ops);
    Greeted(id, configured, hello);
    FollowCases(a, NO_LOG, [hello] + ops);
    assert ([hello] + ops)[0] == hello && ([hello] + ops)[1..] == ops;
    NumberedAdmitted(Handle(a, hello).0, NO_LOG, ops);
    ConcatNil(ops);
    NoLogParts();
    InOrderParts(Follow(a, [hello] + ops).session, FollowLog(a, NO_LOG, [hello] + ops));
    NumbersUpTo(id, ops);
  }

  lemma NoLogParts()
    ensures NO_LOG == Log([], [])
  {
  }

  lemma InOrderParts(s: SessionState, l: Log)
    requires InOrder(s, l)
    ensures l.reached == Carrying(l.admitted)
  {
    hide Carrying;
  }

  lemma NumbersUpTo(id: string, ops: seq<Envelope>)
    requires NumberedFrom(id, 1, ops)
    ensures Numbers(ops) == UpTo(|ops|)
  {
  }

  const COMMIT := Operation(1, 2, OpCommit, "", Box, "", None, "", "", Missing)

  const HELLO := Envelope("", 0, HelloBody(Decoded(Hello([1], []))), Backpressure)
  const GARBLED := Envelope("", 1, OperationBody(Malformed(InvalidProps)), Backpressure)
  const GOOD := Envelope("", 2, OperationBody(Decoded(COMMIT)), Backpressure)

  /** Number 1 is used up by what does not decode; only number 2 reaches the engine. */
  lemma NumberLost(id: string, configured: Limits)
    requires DocumentBytes(NewDocument().nodes) <= EffectiveLimits(configured).maxDocumentBytes
    ensures EngineOk(NewAgent(id, configured).engine)
    ensures var a := NewAgent(id, configured);
      var l, r := FollowLog(a, NO_LOG, [HELLO, GARBLED, GOOD]), Follow(a, [HELLO, GARBLED, GOOD]);
      && Numbers(l.admitted) == [1, 2] && Numbers(l.reached) == [2] && Replays(a.engine, l, r)
      && r.engine == ApplyOp(a.engine, COMMIT, GOOD.over).0 && r.session.expected == 3
  {
    LossyStream(id, configured);
    hide *;
    SenderStream(id, configured, HELLO, [GARBLED, GOOD]);
    assert [HELLO] + [GARBLED, GOOD] == [HELLO, GARBLED, GOOD];
    var a := NewAgent(id, configured);
    EmptyReplays(a);
    ReplaysIs(a.engine, NO_LOG, a);
    ReplaysIs(a.engine, Log([GARBLED, GOOD], [GOOD]), Follow(a, [HELLO, GARBLED, GOOD]));
    NoLogParts();
    ReplaySnoc(a.engine, [], GOOD);
    ConcatNil([GOOD]);
  }

  lemma LossyStream(id: string, configured: Limits)
    ensures Greets(id, configured, HELLO) && NumberedFrom(id, 1, [GARBLED, GOOD])
    ensures Carries(GOOD) && GOOD.body.op.value == COMMIT && Carrying([GARBLED, GOOD]) == [GOOD]
    ensures Numbers([GARBLED, GOOD]) == [1, 2] && Numbers([GOOD]) == [2]
  {
    CarryingSnoc([], GARBLED);
    CarryingSnoc([GARBLED], GOOD);
    assert [] + [GARBLED] == [GARBLED] && [GARBLED] + [GOOD] == [GARBLED, GOOD];
    hide EffectiveLimits;
  }

  lemma ReplaysIs(e: EngineState, l: Log, a: AgentState)
    ensures Replays(e, l, a) <==> EngineOk(e) && AllCarry(l.reached) && a.engine == Replay(e, l.reached)
  {
    hide EngineOk;
    hide Replay;
    hide AllCarry;
  }

  // ---- duplicates ----

  /** An operation envelope whose number was admitted before changes nothing, whatever it carries. */
  lemma RepeatIgnored(a: AgentState, l: Log, dup: Envelope)
    requires EngineOk(a.engine) && dup.body.OperationBody? && 0 < dup.number < a.session.expected
    ensures Handle(a, dup).0 == a && Logged(a, l, dup) == l
  {
    hide EngineOk;
    hide Executed;
  }

  lemma {:induction false} FollowConcat(a: AgentState, l: Log, x: seq<Envelope>, y: seq<Envelope>)
    requires EngineOk(a.engine)
    ensures Follow(a, x + y) == Follow(Follow(a, x), y)
    ensures FollowLog(a, l, x + y) == FollowLog(Follow(a, x), FollowLog(a, l, x), y)
    decreases |x|
  {
    hide *;
    FollowCases(a, l, x);
    FollowCases(a, l, x + y);
    if x == [] {
      assert x + y == y;
    } else {
      assert (x + y)[0] == x[0] && (x + y)[1..] == x[1..] + y;
      FollowConcat(Handle(a, x[0]).0, Logged(a, l, x[0]), x[1..], y);
    }
  }

  /** An envelope of the clean stream, or one that is sent again. */
  datatype Sending = First(env: Envelope) | Again(env: Envelope)

  function Everything(sent: seq<Sending>): seq<Envelope> {
    seq(|sent|, i requires 0 <= i < |sent| => sent[i].env)
  }

  /** The clean stream. */
  function Originals(sent: seq<Sending>): seq<Envelope> {
    if sent == [] then []
    else
      var last := sent[|sent| - 1];
      Originals(sent[..|sent| - 1]) + if last.First? then [last.env] else []
  }

  /** An operation envelope whose number the clean stream has had admitted, whatever it carries. */
  ghost predicate WasAdmitted(a: AgentState, clean: seq<Envelope>, env: Envelope)
    requires EngineOk(a.engine)
  {
    env.body.OperationBody? && env.number in Numbers(FollowLog(a, NO_LOG, clean).admitted)
  }

  ghost predicate RepeatsAdmitted(a: AgentState, sent: seq<Sending>)
    requires EngineOk(a.engine)
  {
    forall i :: 0 <= i < |sent| && sent[i].Again? ==> WasAdmitted(a, Originals(sent[..i]), sent[i].env)
  }

  lemma RepeatsAre(a: AgentState, sent: seq<Sending>)
    requires EngineOk(a.engine)
    ensures RepeatsAdmitted(a, sent) <==>
      forall i :: 0 <= i < |sent| && sent[i].Again? ==> WasAdmitted(a, Originals(sent[..i]), sent[i].env)
  {
    hide EngineOk;
    hide WasAdmitted;
    hide Originals;
  }

  lemma {:induction false} AdmittedBelow(a: AgentState, l: Log, envs: seq<Envelope>)
    requires EngineOk(a.engine) && AllBelow(l.admitted, a.session.expected)
    ensures AllBelow(FollowLog(a, l, envs).admitted, Follow(a, envs).session.expected)
    decreases |envs|
  {
    hide *;
    FollowCases(a, l, envs);
    if envs != [] {
      HandleSession(a, envs[0]);
      LoggedIs(a, l, envs[0]);
      StillBelow(a, l, envs[0]);
      AdmittedBelow(Handle(a, envs[0]).0, Logged(a, l, envs[0]), envs[1..]);
    }
  }

  lemma StillBelow(a: AgentState, l: Log, env: Envelope)
    requires AllBelow(l.admitted, a.session.expected)
    ensures AllBelow(if Admits(a, env) then l.admitted + [env] else l.admitted,
                     if Admits(a, env) then a.session.expected + 1 else a.session.expected)
  {
  }

  lemma NumberBelow(envs: seq<Envelope>, bound: nat, n: nat)
    requires AllBelow(envs, bound) && n in Numbers(envs)
    ensures 0 < n < bound
  {
  }

  lemma SendingSnoc(sent: seq<Sending>)
    requires sent != []
    ensures var front, last := sent[..|sent| - 1], sent[|sent| - 1];
      && Everything(sent) == Everything(front) + [last.env]
      && Originals(sent) == if last.First? then Originals(front) + [last.env] else Originals(front)
  {
    var front := sent[..|sent| - 1];
    assert Originals(front) + [] == Originals(front);
    hide Originals;
  }

  lemma RepeatsFront(a: AgentState, sent: seq<Sending>)
    requires EngineOk(a.engine) && RepeatsAdmitted(a, sent) && sent != []
    ensures var front, last := sent[..|sent| - 1], sent[|sent| - 1];
      && RepeatsAdmitted(a, front)
      && (last.Again? ==> WasAdmitted(a, Originals(front), last.env))
  {
    hide *;
    var front := sent[..|sent| - 1];
    RepeatsAre(a, sent);
    assert forall i :: 0 <= i < |front| ==> front[i] == sent[i] && front[..i] == sent[..i];
    RepeatsAre(a, front);
  }

  /**
   Any number of repetitions of admitted envelopes, anywhere in the stream and with whatever content,
   leave session, engine, update slot and log as the clean stream does.
   */
  lemma {:induction false} DuplicatesHarmless(a: AgentState, l: Log, sent: seq<Sending>)
    requires EngineOk(a.engine) && RepeatsAdmitted(a, sent)
    ensures Follow(a, Everything(sent)) == Follow(a, Originals(sent))
    ensures FollowLog(a, l, Everything(sent)) == FollowLog(a, l, Originals(sent))
    decreases |sent|
  {
    hide *;
    if sent == [] {
      NothingSent();
      return;
    }
    var front, last := sent[..|sent| - 1], sent[|sent| - 1];
    SendingSnoc(sent);
    RepeatsFront(a, sent);
    DuplicatesHarmless(a, l, front);
    var clean := Originals(front);
    var b, m := Follow(a, clean), FollowLog(a, l, clean);
    FollowConcat(a, l, Everything(front), [last.env]);
    FollowConcat(a, l, clean, [last.env]);
    if last.Again? {
      AdmittedIgnored(a, m, clean, last.env);
      FollowCases(b, m, [last.env]);
      assert [last.env][1..] == [];
      FollowCases(b, m, []);
    }
  }

  lemma NothingSent()
    ensures Everything([]) == Originals([]) == []
  {
  }

  lemma AdmittedIgnored(a: AgentState, m: Log, clean: seq<Envelope>, env: Envelope)
    requires EngineOk(a.engine) && WasAdmitted(a, clean, env)
    ensures var b := Follow(a, clean); Handle(b, env).0 == b && Logged(b, m, env) == m
  {
    hide *;
    NothingBelow(a);
    AdmittedBelow(a, NO_LOG, clean);
    ItWasAdmitted(a, clean, env);
    NumberBelow(FollowLog(a, NO_LOG, clean).admitted, Follow(a, clean).session.expected, env.number);
    RepeatIgnored(Follow(a, clean), m, env);
  }

  lemma ItWasAdmitted(a: AgentState, clean: seq<Envelope>, env: Envelope)
    requires EngineOk(a.engine)
    ensures WasAdmitted(a, clean, env) <==>
      env.body.OperationBody? && env.number in Numbers(FollowLog(a, NO_LOG, clean).admitted)
  {
    hide EngineOk;
    hide FollowLog;
    hide Numbers;
  }

  lemma NothingBelow(a: AgentState)
    ensures AllBelow(NO_LOG.admitted, a.session.expected)
  {
  }

  /** Sent again is only what has the number of an operation envelope that was sent before. */
  predicate RepeatsSent(sent: seq<Sending>) {
    forall i :: 0 <= i < |sent| && sent[i].Again? ==>
      sent[i].env.body.OperationBody? && sent[i].env.number in Numbers(Originals(sent[..i]))
  }

  lemma {:induction false} OriginalsPrefix(sent: seq<Sending>, i: nat)
    requires i <= |sent|
    ensures Originals(sent[..i]) <= Originals(sent)
    decreases |sent|
  {
    if i < |sent| {
      var front := sent[..|sent| - 1];
      assert front[..i] == sent[..i];
      OriginalsPrefix(front, i);
      SendingSnoc(sent);
      hide Originals;
    } else {
      assert sent[..i] == sent;
    }
  }

  lemma NumberedPrefix(id: string, ops: seq<Envelope>, prefix: seq<Envelope>)
    requires NumberedFrom(id, 1, ops) && prefix <= ops
    ensures NumberedFrom(id, 1, prefix)
  {
  }

  /**
   A sender that numbers its operations 1, 2, ..., n and sends any of them again, as often and as late
   as it likes, gets what it would get without the repetitions.
   */
  lemma RetransmissionHarmless(id: string, configured: Limits, hello: Envelope, sent: seq<Sending>)
    requires DocumentBytes(NewDocument().nodes) <= EffectiveLimits(configured).maxDocumentBytes
    requires Greets(id, configured, hello) && NumberedFrom(id, 1, Originals(sent)) && RepeatsSent(sent)
    ensures EngineOk(NewAgent(id, configured).engine)
    ensures var a, ops := NewAgent(id, configured), Originals(sent);
      var stream := [hello] + Everything(sent);
      && Follow(a, stream) == Follow(a, [hello] + ops)
      && FollowLog(a, NO_LOG, stream) == Log(ops, Carrying(ops))
  {
    hide *;
    var a, ops := NewAgent(id, configured), Originals(sent);
    SenderStream(id, configured, hello, ops);
    Greeted(id, configured, hello);
    HandleOk(a, hello);
    var b := Handle(a, hello).0;
    forall i | 0 <= i < |sent| && sent[i].Again?
      ensures WasAdmitted(b, Originals(sent[..i]), sent[i].env)
    {
      RepeatsSentAt(sent, i);
      OriginalsPrefix(sent, i);
      NumberedPrefix(id, ops, Originals(sent[..i]));
      NumberedAdmitted(b, NO_LOG, Originals(sent[..i]));
      NoLogParts();
      ConcatNil(Originals(sent[..i]));
      ItWasAdmitted(b, Originals(sent[..i]), sent[i].env);
    }
    RepeatsAre(b, sent);
    DuplicatesHarmless(b, NO_LOG, sent);
    AfterHello(a, hello, Everything(sent));
    AfterHello(a, hello, ops);
  }

  lemma RepeatsSentAt(sent: seq<Sending>, i: nat)
    requires RepeatsSent(sent) && i < |sent| && sent[i].Again?
    ensures sent[i].env.body.OperationBody? && sent[i].env.number in Numbers(Originals(sent[..i]))
  {
    hide Originals;
    hide Numbers;
  }

  lemma AfterHello(a: AgentState, hello: Envelope, envs: seq<Envelope>)
    requires EngineOk(a.engine) && Logged(a, NO_LOG, hello) == NO_LOG
    ensures EngineOk(Handle(a, hello).0.engine)
    ensures Follow(a, [hello] + envs) == Follow(Handle(a, hello).0, envs)
    ensures FollowLog(a, NO_LOG, [hello] + envs) == FollowLog(Handle(a, hello).0, NO_LOG, envs)
  {
    hide *;
    FollowCases(a, NO_LOG, [hello] + envs);
    assert ([hello] + envs)[0] == hello && ([hello] + envs)[1..] == envs;
  }

  // ---- after a gap ----

  lemma {:induction false} ClosedForGood(a: AgentState, envs: seq<Envelope>)
    requires EngineOk(a.engine) && a.session.phase == Closed
    ensures Follow(a, envs).engine == a.engine && Follow(a, envs).signal == a.signal
    ensures Follow(a, envs).session.phase == Closed
    decreases |envs|
  {
    hide *;
    FollowCases(a, NO_LOG, envs);
    if envs != [] {
      HandleSession(a, envs[0]);
      ClosedBars(a, envs[0]);
      ClosedForGood(Handle(a, envs[0]).0, envs[1..]);
    }
  }

  lemma ClosedBars(a: AgentState, env: Envelope)
    requires a.session.phase == Closed
    ensures !Reaches(a, env)
  {
  }

  /** After a gap or a zero number no operation ever reaches the engine again. */
  lemma GapIsFinal(a: AgentState, env: Envelope, envs: seq<Envelope>)
    requires EngineOk(a.engine) && a.session.phase == Ready && env.body.OperationBody?
    requires env.session == "" || env.session == a.session.id
    requires env.number == 0 || env.number > a.session.expected
    ensures Follow(a, [env] + envs).engine == a.engine && Follow(a, [env] + envs).session.phase == Closed
  {
    hide *;
    GapCloses(a, env);
    FollowCases(a, NO_LOG, [env] + envs);
    assert ([env] + envs)[1..] == envs;
    ClosedForGood(Handle(a, env).0, envs);
  }

  lemma GapCloses(a: AgentState, env: Envelope)
    requires EngineOk(a.engine) && a.session.phase == Ready && env.body.OperationBody?
    requires env.session == "" || env.session == a.session.id
    requires env.number == 0 || env.number > a.session.expected
    ensures Handle(a, env).0 == a.(session := a.session.(phase := Closed)) && Handle(a, env).1.Failure?
  {
    hide EngineOk;
    hide Executed;
  }

  // ---- the code ----

  class Agent {
    const session: Session
    const engine: Engine
    var signal: bool

    function Value(): AgentState
      reads this, session, engine, engine.state, engine.broker
    {
      AgentState(session.Value(), engine.Value(), signal)
    }

    constructor (id: string, configured: Limits)
      ensures Value() == NewAgent(id, configured)
    {
      session := new Session(id, configured);
      var limits := EffectiveLimits(configured);
      engine := new Engine(configured, limits.maxPendingEvents);
      signal := false;
    }

    /** signalSnapshot: the slot is filled unless it already is. */
    method SignalSnapshot()
      modifies this`signal
      ensures signal
    {
      if !signal { signal := true; }
    }

    method HandleEnvelope(env: Envelope) returns (r: Answer, ghost over: Code)
      requires EngineOk(engine.Value())
      modifies this, session, engine, engine.state, engine.broker
      ensures (Value(), r) == Handle(old(Value()), env.(over := over))
    {
      hide EngineOk;
      hide Executed;
      hide Negotiation;
      hide Admit;
      over := env.over;
      if env.session != "" && env.session != session.id { return Failure(SessionMismatch), over; }
      match env.body {
        case HelloBody(Malformed(code)) => r := Failure(code);
        case HelloBody(Decoded(h)) =>
          var answer := session.Negotiate(h);
          r := match answer case Refused(code) => Failure(code) case Agreed(ack) => Welcome(ack);
        case OperationBody(body) =>
          var admission := session.AcceptMutation(env.number);
          match admission {
            case Barred(code) => r := Failure(code);
            case Duplicate => r := Nothing;
            case Next => r, over := Execute(env);
          }
        case TelemetryBody => r := Nothing;
        case OtherBody => r := Failure(UnsupportedKind);
      }
    }

    method Execute(env: Envelope) returns (r: Answer, ghost over: Code)
      requires EngineOk(engine.Value()) && env.body.OperationBody?
      modifies this`signal, engine, engine.state, engine.broker
      ensures (Value(), r) == Executed(old(Value()), env.(over := over))
    {
      hide EngineOk;
      hide ApplyOp;
      over := env.over;
      if env.body.op.Malformed? { return Failure(env.body.op.code), over; }
      var op := env.body.op.value;
      if op.opSeq != env.number { return Failure(SequenceMismatch), over; }
      var reply;
      reply, over := engine.Apply(op);
      if reply.Error? { return Failure(reply.code), over; }
      if reply.Halted? { return Crash, over; }
      SignalSnapshot();
      r := Nothing;
    }

    /** Hands out everything that is queued, in order. */
    method DrainEvents() returns (out: seq<Event>)
      requires EngineOk(engine.Value())
      modifies engine.broker
      ensures Payloads(out) == old(Payloads(engine.broker.Value().critical))
      ensures forall i :: 0 <= i < |out| ==> out[i].number == old(engine.broker.nextSeq) + 1 + i
      ensures EngineOk(engine.Value()) && engine.broker.critical == []
      ensures engine.Value() == old(engine.Value()).(broker := engine.broker.Value())
    {
      hide EngineOk;
      hide Handing;
      hide Handed;
      hide Payloads;
      ghost var start := engine.Value();
      HandingStart(start.broker);
      out := [];
      while true
        invariant EngineOk(engine.Value())
        invariant engine.Value() == start.(broker := engine.broker.Value())
        invariant Handing(start.broker, engine.broker.Value(), out)
        decreases |engine.broker.critical|
      {
        ghost var e := engine.Value();
        HandedOk(e);
        QueueBounded(e);
        var reply := engine.NextEvent();
        if !reply.Sent? {
          HandingEnd(start.broker, e.broker, out);
          return;
        }
        HandingNext(start.broker, e.broker, out);
        out := out + [reply.event];
      }
    }
  }

  /** `out` was handed out of `b0`, and `b` is left. */
  ghost predicate Handing(b0: Queues, b: Queues, out: seq<Event>) {
    && Payloads(out) + Payloads(b.critical) == Payloads(b0.critical)
    && b.nextSeq == b0.nextSeq + |out|
    && forall i :: 0 <= i < |out| ==> out[i].number == b0.nextSeq + 1 + i
  }

  lemma HandingStart(b: Queues)
    ensures Handing(b, b, [])
  {
    assert Payloads([]) + Payloads(b.critical) == Payloads(b.critical);
  }

  lemma HandingEnd(b0: Queues, b: Queues, out: seq<Event>)
    requires Handing(b0, b, out) && b.critical == []
    ensures Payloads(out) == Payloads(b0.critical)
    ensures forall i :: 0 <= i < |out| ==> out[i].number == b0.nextSeq + 1 + i
  {
    assert Payloads(out) + Payloads([]) == Payloads(out);
  }

  lemma QueueBounded(e: EngineState)
    requires EngineOk(e)
    ensures Bounded(e.broker)
  {
    CriticalBounded(e.broker);
    hide DocumentOk;
    hide Bounded;
  }

  lemma HandingNext(b0: Queues, b: Queues, out: seq<Event>)
    requires Handing(b0, b, out) && b.critical != []
    ensures Handing(b0, b.(nextSeq := b.nextSeq + 1, critical := b.critical[1..]), out + [Delivered(b, b.critical[0])])
  {
    PayloadsSnoc(out, Delivered(b, b.critical[0]));
    PayloadsCons(b.critical);
    assert Payload(Delivered(b, b.critical[0])) == Payload(b.critical[0]);
    hide Payloads;
    assert Payloads(out) + ([Payload(b.critical[0])] + Payloads(b.critical[1..]))
        == (Payloads(out) + [Payload(b.critical[0])]) + Payloads(b.critical[1..]);
  }
}

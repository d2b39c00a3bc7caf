/** What the agent is answered, and when the renderer is told that there is something new (daemon/agent.go). */
module AgentLaws {
  import opened Protocol
  import opened Documents
  import opened Engines
  import opened EngineLaws
  import opened Sessions
  import opened Agents

  /** The envelope's operation reaches the engine, which accepts it. */
  ghost predicate Accepts(a: AgentState, env: Envelope)
    requires EngineOk(a.engine)
  {
    Reaches(a, env) && Carries(env) && ApplyOp(a.engine, env.body.op.value, env.over).1.Fine?
  }

  /** An operation envelope for this session whose number was admitted before. */
  predicate Repeated(a: AgentState, env: Envelope) {
    && Addressed(a.session.id, env) && env.body.OperationBody?
    && a.session.phase == Ready && 0 < env.number < a.session.expected
  }

  /**
   The answer to an operation envelope is empty exactly when the operation was accepted or is a
   repetition; an operation the engine refuses is answered with the engine's own code.
   */
  lemma AnswerTells(a: AgentState, env: Envelope)
    requires EngineOk(a.engine) && env.body.OperationBody?
    ensures var answer := Handle(a, env).1;
      && (answer.Nothing? <==> Accepts(a, env) || Repeated(a, env))
      && (answer.Crash? <==> Reaches(a, env) && Carries(env)
                             && ApplyOp(a.engine, env.body.op.value, env.over).1.Halted?)
      && (Reaches(a, env) && Carries(env) && ApplyOp(a.engine, env.body.op.value, env.over).1.Error? ==>
            answer == Failure(ApplyOp(a.engine, env.body.op.value, env.over).1.code))
      && !answer.Welcome?
  {
    hide *;
    AcceptsIs(a, env);
    ItCarries(env);
    if Reaches(a, env) {
      ReachedAnswer(a, env);
      OnlyThree(a.engine, env.body.op.value, env.over);
      NotRepeated(a, env);
    } else {
      UnreachedAnswer(a, env);
    }
  }

  lemma NotRepeated(a: AgentState, env: Envelope)
    requires Reaches(a, env)
    ensures !Repeated(a, env)
  {
    hide Carries;
  }

  /** What the engine replies decides the answer and the signal. */
  lemma ReachedAnswer(a: AgentState, env: Envelope)
    requires EngineOk(a.engine) && Reaches(a, env) && Carries(env)
    ensures var reply, r := ApplyOp(a.engine, env.body.op.value, env.over).1, Handle(a, env);
      && r.1 == (if reply.Error? then Failure(reply.code) else if reply.Halted? then Crash else Nothing)
      && r.0.signal == (a.signal || !(reply.Error? || reply.Halted?))
  {
    hide EngineOk;
    hide ApplyOp;
  }

  /** What does not reach the engine is refused, unless it is a repetition. */
  lemma UnreachedAnswer(a: AgentState, env: Envelope)
    requires EngineOk(a.engine) && env.body.OperationBody? && !Reaches(a, env)
    ensures var answer := Handle(a, env).1; if Repeated(a, env) then answer.Nothing? else answer.Failure?
  {
    hide EngineOk;
    hide ApplyOp;
  }

  /** Only an accepted hello is welcomed; what is no hello and no operation changes nothing. */
  lemma OthersAnswered(a: AgentState, env: Envelope)
    requires EngineOk(a.engine) && !env.body.OperationBody?
    ensures var (after, answer) := Handle(a, env);
      && after.engine == a.engine && after.signal == a.signal
      && (answer.Welcome? <==>
            && Addressed(a.session.id, env) && env.body.HelloBody? && env.body.hello.Decoded?
            && a.session.phase == Fresh && GoodHello(env.body.hello.value))
      && (answer.Welcome? ==> answer.ack.features == after.session.features && answer.ack.limits == a.session.limits)
      && (!answer.Welcome? ==> after == a)
      && (answer.Nothing? <==> Addressed(a.session.id, env) && env.body.TelemetryBody?)
  {
    hide *;
    OthersHandled(a, env);
    if env.body.HelloBody? && env.body.hello.Decoded? { HelloAccepted(a.session, env.body.hello.value); }
  }

  lemma OthersHandled(a: AgentState, env: Envelope)
    requires EngineOk(a.engine) && !env.body.OperationBody?
    ensures var (after, answer) := Handle(a, env);
      if Addressed(a.session.id, env) && env.body.HelloBody? && env.body.hello.Decoded? then
        var (s, r) := Negotiation(a.session, env.body.hello.value);
        && after == a.(session := s) && (r.Agreed? ==> answer == Welcome(r.ack)) && (!r.Agreed? ==> answer.Failure?)
        && (answer.Welcome? ==> s.id == a.session.id)
      else
        && after == a && !answer.Welcome?
        && (answer.Nothing? <==> Addressed(a.session.id, env) && env.body.TelemetryBody?)
  {
    hide EngineOk;
    hide Negotiation;
    NegotiatedId(a.session, env);
  }

  lemma NegotiatedId(s: SessionState, env: Envelope)
    ensures env.body.HelloBody? && env.body.hello.Decoded? ==> Negotiation(s, env.body.hello.value).0.id == s.id
  {
    hide ValidateHello;
    hide Shared;
    hide Sort;
  }

  lemma OnlyThree(e: EngineState, op: Operation, over: Code)
    requires EngineOk(e)
    ensures var reply := ApplyOp(e, op, over).1; reply.Fine? || reply.Error? || reply.Halted?
  {
    hide *;
    ApplyCases(e, op, over);
    var out := Reducer.Apply(e.doc, op, e.limits);
    EmitErrorOk(e, op, over);
    if out.Failed? { EmitErrorOk(e, op, out.code); }
    if out.Applied? {
      InstallCases(e, op, out.doc, out.eff);
      EmitErrorOk(e, op, Backpressure);
      var r := Projections.Reconcile(e.state, e.doc, out.doc, op, out.eff);
      if r.Denied? { EmitErrorOk(e, op, r.code); }
    }
  }

  lemma HandleTells(a: AgentState, env: Envelope)
    requires EngineOk(a.engine)
    ensures EngineOk(Handle(a, env).0.engine)
    ensures Handle(a, env).0.signal <==> a.signal || Accepts(a, env)
    ensures !Accepts(a, env) ==> Present(Handle(a, env).0.engine) == Present(a.engine)
  {
    HandleOk(a, env);
    HandleSession(a, env);
    SignalAfter(a, env);
    AcceptsIs(a, env);
    hide *;
    if Reaches(a, env) && !Accepts(a, env) {
      ItCarries(env);
      RefusedSame(a.engine, env.body.op.value, env.over);
    }
  }

  lemma AcceptsIs(a: AgentState, env: Envelope)
    requires EngineOk(a.engine)
    ensures Accepts(a, env) ==> Reaches(a, env)
    ensures Reaches(a, env) ==> Carries(env)
    ensures Reaches(a, env) && env.body.OperationBody? && env.body.op.Decoded? ==>
      (Accepts(a, env) <==> ApplyOp(a.engine, env.body.op.value, env.over).1.Fine?)
  {
    hide EngineOk;
    hide ApplyOp;
    hide Admits;
  }

  lemma SignalAfter(a: AgentState, env: Envelope)
    requires EngineOk(a.engine)
    ensures Handle(a, env).0.signal <==> a.signal || Accepts(a, env)
  {
    hide *;
    HandleSession(a, env);
    AcceptsIs(a, env);
    ItCarries(env);
    if Reaches(a, env) {
      ReachedAnswer(a, env);
      OnlyThree(a.engine, env.body.op.value, env.over);
    }
  }

  lemma RefusedSame(e: EngineState, op: Operation, over: Code)
    requires EngineOk(e) && !ApplyOp(e, op, over).1.Fine?
    ensures Present(ApplyOp(e, op, over).0) == Present(e)
  {
    RefusedOnlyReported(e, op, over);
    hide EngineOk;
    hide ApplyOp;
    hide ReportsError;
    hide Broker.Payloads;
  }

  /**
   Over every stream the update slot fills exactly when some operation of it is accepted; as long as
   it stays empty a renderer would draw what it drew before.
   */
  lemma {:induction false} SlotFills(a: AgentState, envs: seq<Envelope>)
    requires EngineOk(a.engine)
    ensures Follow(a, envs).signal <==>
      a.signal || exists i :: 0 <= i < |envs| && Accepts(Follow(a, envs[..i]), envs[i])
    ensures !Follow(a, envs).signal ==> Present(Follow(a, envs).engine) == Present(a.engine)
    decreases |envs|
  {
    hide *;
    FollowCases(a, NO_LOG, envs);
    if envs != [] {
      var n := |envs| - 1;
      var front, last := envs[..n], envs[n];
      SlotFills(a, front);
      var b := Follow(a, front);
      FollowConcat(a, NO_LOG, front, [last]);
      assert front + [last] == envs;
      FollowCases(b, NO_LOG, [last]);
      assert [last][1..] == [];
      FollowCases(Handle(b, last).0, Logged(b, NO_LOG, last), []);
      HandleTells(b, last);
      SomeFront(a, envs);
    }
  }

  lemma SomeFront(a: AgentState, envs: seq<Envelope>)
    requires EngineOk(a.engine) && envs != []
    ensures var n := |envs| - 1;
      (exists i :: 0 <= i < |envs| && Accepts(Follow(a, envs[..i]), envs[i])) <==>
        (exists i :: 0 <= i < n && Accepts(Follow(a, envs[..n][..i]), envs[..n][i]))
        || Accepts(Follow(a, envs[..n]), envs[n])
  {
    hide *;
    var n := |envs| - 1;
    forall i | 0 <= i < n ensures envs[..n][..i] == envs[..i] && envs[..n][i] == envs[i] { }
    if i :| 0 <= i < |envs| && Accepts(Follow(a, envs[..i]), envs[i]) {
      if i < n { assert Accepts(Follow(a, envs[..n][..i]), envs[..n][i]); }
    }
    if i :| 0 <= i < n && Accepts(Follow(a, envs[..n][..i]), envs[..n][i]) {
      assert Accepts(Follow(a, envs[..i]), envs[i]);
    }
  }
}

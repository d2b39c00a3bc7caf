/** What the engine promises over whole runs: agreement, refusals, and the publication barrier. */
module EngineLaws {
  import opened Forests
  import opened Protocol
  import opened Documents
  import opened Reducer
  import opened Focus
  import opened Selections
  import opened Projections
  import opened ProjectionLaws
  import opened Broker
  import opened Engines
  import Bindings
  import Preservation

  ghost function After(e: EngineState, calls: seq<Engines.Call>): (r: EngineState)
    requires EngineOk(e)
    ensures EngineOk(r)
    decreases |calls|
  {
    hide *;
    if calls == [] then e
    else
      StepOk(e, calls[0]);
      After(Engines.Step(e, calls[0]).0, calls[1..])
  }

  /**
   In every state any sequence of calls can reach, the document is a valid tree, the projection
   agrees with it, the queue is within its capacity and the pending commits fit into it.
   */
  lemma ReachableOk(configured: Limits, requested: int, calls: seq<Engines.Call>)
    requires DocumentBytes(NewDocument().nodes) <= EffectiveLimits(configured).maxDocumentBytes
    ensures EngineOk(NewEngine(configured, requested))
    ensures EngineOk(After(NewEngine(configured, requested), calls))
  {
    hide *;
    NewOk(configured, requested);
  }

  // ---- what the agent is told of the renderer ----

  /**
   Activating raises an event exactly on a selectable table with rows, and the event names an existing
   row, by that row's identifier where rows have one.
   */
  lemma ActivationNamesRow(e: EngineState, id: Id)
    requires EngineOk(e)
    ensures Activated(e, id).Raise? <==> id in e.doc.nodes && HoldsSelection(e.doc.nodes[id])
    ensures Activated(e, id).Raise? ==>
      var ev := Activated(e, id).event;
      && ev.ev == "select" && ev.id == id && Fits(e.doc.nodes[id], Selection(ev.row, ev.rowId))
      && id in e.state.selections && Selection(ev.row, ev.rowId) == e.state.selections[id]
      && ev.action == StringOf(PropJson(e.doc.nodes[id].props, "action"))
  {
    AllOk(e);
    OkDocument(e.doc, e.state, e.limits);
    SelectionsOf(e.state, e.doc);
    hide EngineOk;
    hide DocumentOk;
    hide Consistent;
    hide RowIds;
    hide TableRows;
  }

  lemma SelectionsOf(s: Projection, d: Document)
    requires Consistent(s, d)
    ensures SelectionsFit(d.nodes, s.selections) && InputsFit(d.nodes, s.inputs)
    ensures Bindings.BuildBindings(d.nodes) == Bindings.Indexed(s.bindings) && IsTree(d.nodes)
  {
    hide IsTree;
    hide SelectionsFit;
    hide InputsFit;
    hide Bindings.BuildBindings;
  }

  /** Submitting raises an event exactly on an input, with the value stored for it. */
  lemma SubmissionNamesValue(e: EngineState, id: Id)
    requires EngineOk(e)
    ensures Submitted(e, id).Raise? <==> id in e.doc.nodes && e.doc.nodes[id].kind.Input?
    ensures Submitted(e, id).Raise? ==>
      var ev := Submitted(e, id).event;
      && ev.ev == "submit" && ev.id == id && id in e.state.inputs && ev.value == e.state.inputs[id]
      && ev.action == StringOf(PropJson(e.doc.nodes[id].props, "action"))
  {
    AllOk(e);
    OkDocument(e.doc, e.state, e.limits);
    SelectionsOf(e.state, e.doc);
    hide EngineOk;
    hide DocumentOk;
    hide Consistent;
  }

  /** A bound key is declared by exactly the node the binding names, in the current document. */
  lemma BoundKeyIsDeclared(e: EngineState, key: string)
    requires EngineOk(e) && key in e.state.bindings
    ensures var b := e.state.bindings[key];
      && b.key == key && b.nodeId in e.doc.nodes && e.doc.nodes[b.nodeId].kind.Actions?
      && DeclaredBy(e.doc.nodes[b.nodeId], b)
  {
    hide *;
    AllOk(e);
    OkDocument(e.doc, e.state, e.limits);
    SelectionsOf(e.state, e.doc);
    Bindings.BindingsMeaning(e.doc.nodes);
    SoundKept(e.doc, e.limits);
    DeclaredSomewhere(e.doc.nodes, e.state.bindings, key, e.limits);
  }

  lemma SoundKept(d: Document, limits: Limits)
    requires Sound(d, limits)
    ensures Kept(d.nodes, limits)
  {
    hide Valid;
    hide Kept;
  }

  /** An item of the node has the binding's key, label, action and arguments. */
  predicate DeclaredBy(n: Node, b: Bindings.Binding) {
    exists i :: 0 <= i < |ItemsOf(PropJson(n.props, "items"))| && Says(ItemsOf(PropJson(n.props, "items"))[i], b)
  }

  predicate Says(item: Json, b: Bindings.Binding) {
    && item.Obj?
    && "key" in item.fields && item.fields["key"] == Str(b.key)
    && "label" in item.fields && item.fields["label"] == Str(b.caption)
    && "action" in item.fields && item.fields["action"] == Str(b.action)
    && (if "args" in item.fields then b.args == Some(item.fields["args"]) else b.args.None?)
  }

  lemma DeclaredSomewhere(nodes: Nodes, m: Bindings.KeyMap, key: string, limits: Limits)
    requires Bindings.UnionOf(nodes, nodes.Keys, m) && key in m && Kept(nodes, limits)
    ensures var b := m[key];
      b.key == key && b.nodeId in nodes && nodes[b.nodeId].kind.Actions? && DeclaredBy(nodes[b.nodeId], b)
  {
    var x :| x in nodes.Keys && m[key] in Bindings.DeclaredAt(nodes, x) && m[key].key == key;
    var i :| 0 <= i < |Bindings.Declared(x, nodes[x])| && Bindings.Declared(x, nodes[x])[i] == m[key];
    Preservation.KeptAt(nodes, x, limits);
    ItemsOk(x, nodes[x], limits);
    var items := ItemsOf(PropJson(nodes[x].props, "items"));
    assert items[i] in items && Says(items[i], m[key]);
  }

  /** The schema of an actions node makes its items complete. */
  lemma ItemsOk(x: Id, n: Node, limits: Limits)
    requires NodeKept(x, n, limits) && n.kind.Actions?
    ensures forall j :: j in ItemsOf(PropJson(n.props, "items")) ==> ItemOk(j)
  {
    assert ItemsRule in Rules(Actions);
    assert Obeys(n.props, ItemsRule);
  }

  // ---- refused operations ----

  /** Apart from the queue nothing changed, and the queue got the report, unless it was full. */
  ghost predicate OnlyReported(e: EngineState, after: EngineState, op: Operation, reply: Reply) {
    && after == e.(broker := after.broker)
    && (after == e
        || exists ev: Event, code: Code ::
             && reply == Error(code) && ReportsError(ev, op, code)
             && Payloads(after.broker.critical) == Payloads(e.broker.critical) + [Payload(ev)])
  }

  lemma EmitOnlyReports(e: EngineState, op: Operation, code: Code)
    requires EngineOk(e)
    ensures OnlyReported(e, EmitError(e, op, code).0, op, EmitError(e, op, code).1)
    ensures EmitError(e, op, code).1.Error?
  {
    EmitErrorOk(e, op, code);
    hide EngineOk;
    hide EmitError;
    hide Send;
    var r := EmitError(e, op, code);
    if r != (e, Error(Backpressure)) {
      var ev: Event :| ReportsError(ev, op, code) && r == (Send(e, ev).0, Error(code)) && Send(e, ev).1.Fine?;
      SendOk(e, ev);
    }
    hide Payloads;
    hide ReportsError;
  }

  /** An operation that is not accepted leaves document, projection, pending commits and token alone. */
  lemma RefusedOnlyReported(e: EngineState, op: Operation, over: Code)
    requires EngineOk(e)
    ensures var (after, reply) := ApplyOp(e, op, over);
      !reply.Fine? ==> OnlyReported(e, after, op, reply)
  {
    hide *;
    ApplyCases(e, op, over);
    NothingReported(e, op);
    match Apply(e.doc, op, e.limits) {
      case Failed(code) => EmitOnlyReports(e, op, code);
      case OverLimits => EmitOnlyReports(e, op, over);
      case Crashed =>
      case Applied(next, eff) =>
        InstallCases(e, op, next, eff);
        EmitOnlyReports(e, op, Backpressure);
        var r := Reconcile(e.state, e.doc, next, op, eff);
        if r.Denied? { EmitOnlyReports(e, op, r.code); }
    }
  }

  lemma NothingReported(e: EngineState, op: Operation)
    ensures forall reply :: OnlyReported(e, e, op, reply)
  {
  }

  // ---- the publication barrier ----

  /** `e` comes later than `e0`; as long as the token is the same, so is what a frame shows of the agent's work. */
  ghost predicate Since(e0: EngineState, e: EngineState) {
    && e0.token <= e.token
    && (e.token == e0.token ==>
          && e.doc == e0.doc && e.state.bindings == e0.state.bindings
          && e.state.publicationGeneration == e0.state.publicationGeneration
          && (!NeedsShowing(e)
              || (e.pending == e0.pending && e.state.publishedGeneration == e0.state.publishedGeneration)))
  }

  lemma SinceItself(e: EngineState)
    ensures Since(e, e)
  {
  }

  lemma SinceChain(a: EngineState, b: EngineState, c: EngineState)
    requires Since(a, b) && Since(b, c)
    ensures Since(a, c)
  {
  }

  lemma SinceQueued(e: EngineState, b: Queues)
    ensures Since(e, e.(broker := b))
  {
  }

  lemma SinceInteracted(e: EngineState, s: Projection)
    requires SameGenerations(e.state, s)
    ensures Since(e, e.(state := s))
  {
  }

  lemma SincePublished(e: EngineState, b: Queues)
    ensures Since(e, e.(broker := b, state := Published(e.state), pending := []))
  {
  }

  lemma SinceInstalled(e: EngineState, next: Document, s: Projection, eff: Effect, c: Commit)
    requires s.publicationGeneration == e.state.publicationGeneration ==> s == e.state && next == e.doc
    ensures Since(e, Advanced(e, next, s, eff, c))
  {
  }

  lemma ApplySince(e: EngineState, op: Operation, over: Code)
    requires EngineOk(e)
    ensures Since(e, ApplyOp(e, op, over).0)
  {
    hide *;
    ApplyCases(e, op, over);
    SinceItself(e);
    EmitErrorOk(e, op, over);
    EmitErrorOk(e, op, Backpressure);
    var out := Apply(e.doc, op, e.limits);
    if out.Failed? { EmitErrorOk(e, op, out.code); SinceQueued(e, EmitError(e, op, out.code).0.broker); }
    SinceQueued(e, EmitError(e, op, over).0.broker);
    SinceQueued(e, EmitError(e, op, Backpressure).0.broker);
    if out.Applied? { InstallSince(e, op, out.doc, out.eff); }
  }

  lemma UnchangedSame(prev: Document, next: Document, op: Operation, eff: Effect)
    requires KindsTracked(prev, next, op, eff)
    ensures !eff.changed ==> next == prev
  {
  }

  lemma InstallSince(e: EngineState, op: Operation, next: Document, eff: Effect)
    requires EngineOk(e) && IsTree(next.nodes) && KindsTracked(e.doc, next, op, eff)
    ensures Since(e, Install(e, op, next, eff).0)
  {
    hide *;
    InstallCases(e, op, next, eff);
    UnchangedSame(e.doc, next, op, eff);
    EmitErrorOk(e, op, Backpressure);
    SinceQueued(e, EmitError(e, op, Backpressure).0.broker);
    var r := Reconcile(e.state, e.doc, next, op, eff);
    if r.Denied? {
      EmitErrorOk(e, op, r.code);
      SinceQueued(e, EmitError(e, op, r.code).0.broker);
    } else {
      ReconcileCounters(e.state, e.doc, next, op, eff);
      SinceInstalled(e, next, r.state, eff, Commit(Max0(op.opSeq), op.frame));
    }
  }

  lemma PublishSince(e: EngineState)
    requires EngineOk(e)
    ensures Since(e, PublishAll(e).0)
  {
    hide *;
    PublishExactly(e);
    SinceItself(e);
    SincePublished(e, PublishAll(e).0.broker);
  }

  lemma SignalSince(e: EngineState, s: Signal)
    requires EngineOk(e)
    ensures Since(e, Raised(e, s).0)
  {
    hide *;
    RaisedCases(e, s);
    SinceItself(e);
    if s.Raise? { SendOk(e, s.event); SinceQueued(e, Send(e, s.event).0.broker); }
  }

  lemma StepSince(e: EngineState, c: Engines.Call)
    requires EngineOk(e)
    ensures Since(e, Engines.Step(e, c).0)
  {
    hide *;
    StepCases(e, c);
    SinceItself(e);
    match c {
      case Perform(op, over) => ApplySince(e, op, over);
      case Publish => PublishSince(e);
      case ShowGeneration(g) => PublishSince(e); ShowCases(e, g);
      case NextEvent => HandedOk(e); SinceQueued(e, Handed(e).0.broker);
      case _ =>
        if IsLocal(c) {
          LocalIs(e, c);
          InteractedKeeps(e, c);
          var r := Interacted(e, c);
          if r.Updated? { SinceInteracted(e, r.state); }
        } else {
          SignalOk(e, c);
          SignalSince(e, Signalled(e, c));
        }
    }
  }

  lemma {:induction false} RunSince(e: EngineState, calls: seq<Engines.Call>)
    requires EngineOk(e)
    ensures Since(e, After(e, calls))
    decreases |calls|
  {
    hide *;
    SinceItself(e);
    AfterCases(e, calls);
    if calls != [] {
      StepSince(e, calls[0]);
      StepOk(e, calls[0]);
      var e' := Engines.Step(e, calls[0]).0;
      RunSince(e', calls[1..]);
      SinceChain(e, e', After(e, calls));
    }
  }

  lemma AfterCases(e: EngineState, calls: seq<Engines.Call>)
    requires EngineOk(e)
    ensures calls == [] ==> After(e, calls) == e
    ensures calls != [] ==>
      && EngineOk(Engines.Step(e, calls[0]).0)
      && After(e, calls) == After(Engines.Step(e, calls[0]).0, calls[1..])
  {
    hide EngineOk;
    hide Engines.Step;
    if calls != [] { StepOk(e, calls[0]); }
  }

  /**
   A renderer took a snapshot with the token of `e0`; whatever happened since, if that token is
   acknowledged then document, bindings and pending commits are those of the snapshot, exactly these
   commits are acknowledged, and each acknowledgement names the revision that was shown.
   */
  lemma PublicationBarrier(e0: EngineState, calls: seq<Engines.Call>)
    requires EngineOk(e0)
    ensures var e := After(e0, calls);
      var (after, reply) := Engines.Step(e, ShowGeneration(e0.token));
      if reply.Shown?
      then && e.token == e0.token && e.doc == e0.doc && e.pending == e0.pending
           && e.state.bindings == e0.state.bindings && NeedsShowing(e)
           && after.doc == e0.doc && after.pending == [] && !NeedsShowing(after)
           && Payloads(after.broker.critical) == Payloads(e.broker.critical)
                + Payloads(Acknowledgements(e0.pending, e0.doc.revision))
      else after == e
  {
    hide *;
    RunSince(e0, calls);
    var e := After(e0, calls);
    StepCases(e, ShowGeneration(e0.token));
    ShowCases(e, e0.token);
    PublishExactly(e);
    SameFrame(e0, e);
  }

  lemma SameFrame(e0: EngineState, e: EngineState)
    requires Since(e0, e)
    ensures e.token == e0.token ==> e.doc == e0.doc && e.state.bindings == e0.state.bindings
    ensures e.token == e0.token && NeedsShowing(e) ==> e.pending == e0.pending
  {
  }

  /** A token is acknowledged at most once. */
  lemma TokenShownOnce(e: EngineState, g: nat, calls: seq<Engines.Call>)
    requires EngineOk(e) && Engines.Step(e, ShowGeneration(g)).1.Shown?
    ensures var shown := Engines.Step(e, ShowGeneration(g)).0;
      EngineOk(shown) && !Engines.Step(After(shown, calls), ShowGeneration(g)).1.Shown?
  {
    hide *;
    StepCases(e, ShowGeneration(g));
    ShowCases(e, g);
    PublishExactly(e);
    var shown := PublishAll(e).0;
    StepOk(e, ShowGeneration(g));
    RunSince(shown, calls);
    var later := After(shown, calls);
    StepCases(later, ShowGeneration(g));
    ShowCases(later, g);
    PublishExactly(later);
    StaysShown(shown, later);
  }

  lemma StaysShown(e0: EngineState, e: EngineState)
    requires Since(e0, e) && !NeedsShowing(e0)
    ensures e.token == e0.token ==> !NeedsShowing(e)
  {
  }

  // ---- backpressure never sticks ----

  function Times(c: Engines.Call, n: nat): seq<Engines.Call> {
    if n == 0 then [] else [c] + Times(c, n - 1)
  }

  /** Handing out the queued events always makes publication possible. */
  lemma {:induction false} DrainedPublishes(e: EngineState)
    requires EngineOk(e)
    ensures var drained := After(e, Times(NextEvent, |e.broker.critical|));
      var (after, reply) := Engines.Step(drained, Engines.Publish);
      && drained.doc == e.doc && drained.pending == e.pending && drained.token == e.token
      && reply == Fine && !NeedsShowing(after)
    decreases |e.broker.critical|
  {
    hide *;
    var n := |e.broker.critical|;
    TimesIs(NextEvent, n);
    AfterCases(e, Times(NextEvent, n));
    if n == 0 {
      StepCases(e, Engines.Publish);
      PublishExactly(e);
      EmptyQueueFits(e);
    } else {
      StepCases(e, NextEvent);
      StepOk(e, NextEvent);
      HandedOk(e);
      DrainedPublishes(Handed(e).0);
    }
  }

  lemma TimesIs(c: Engines.Call, n: nat)
    ensures n == 0 ==> Times(c, n) == []
    ensures n > 0 ==> Times(c, n) != [] && Times(c, n)[0] == c && Times(c, n)[1..] == Times(c, n - 1)
  {
  }

  lemma EmptyQueueFits(e: EngineState)
    requires EngineOk(e) && e.broker.critical == []
    ensures Depth(e.broker) + |e.pending| <= e.broker.cap
  {
    CriticalBounded(e.broker);
    hide DocumentOk;
    hide Bounded;
  }
}

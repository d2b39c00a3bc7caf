/**
 The engine (engine/engine.go) as a state machine: each method is one step under the mutex.
 `Engine` in module EngineMethods runs the code against them.
 */
module Engines {
  import opened Forests
  import opened Protocol
  import opened Documents
  import opened Reducer
  import opened Focus
  import opened Selections
  import opened Projections
  import opened ProjectionLaws
  import opened Broker
  import Bindings
  import DocumentLaws
  import Preservation

  /** A commit that waits for the frame it covers to become visible. */
  datatype Commit = Commit(through: nat, frame: string)

  datatype EngineState = EngineState(
    doc: Document, state: Projection, broker: Queues, pending: seq<Commit>, token: nat,
    limits: Limits, maxPending: nat)

  /** Shown is `PublishGeneration` returning true; Halted is a panic. */
  datatype Reply = Fine | Error(code: Code) | Halted | Shown | Sent(event: Event)

  /** What a renderer receives. */
  datatype View = View(
    doc: Document, focusedId: Id, inputs: Inputs, selections: SelectionMap, bindings: Bindings.KeyMap,
    renderGeneration: nat, token: nat, pending: bool)

  function Present(e: EngineState): View {
    View(e.doc, e.state.focusedId, e.state.inputs, e.state.selections, e.state.bindings,
         e.state.renderGeneration, e.token, NeedsShowing(e))
  }

  // ---- construction ----

  const DEFAULT_LIMITS := Limits(1048576, 8388608, 2048, 32, 512, 262144, 2097152, 4096, 64, 256, 256)

  function OrDefault(value: int, default: int): int { if value < 1 then default else value }

  function EffectiveLimits(l: Limits): Limits {
    var d := DEFAULT_LIMITS;
    Limits(OrDefault(l.maxMessageBytes, d.maxMessageBytes), OrDefault(l.maxDocumentBytes, d.maxDocumentBytes),
           OrDefault(l.maxNodes, d.maxNodes), OrDefault(l.maxDepth, d.maxDepth),
           OrDefault(l.maxChildren, d.maxChildren),
           OrDefault(l.maxTextBytesPerNode, d.maxTextBytesPerNode),
           OrDefault(l.maxTotalTextBytes, d.maxTotalTextBytes), OrDefault(l.maxTableRows, d.maxTableRows),
           OrDefault(l.maxTableColumns, d.maxTableColumns), OrDefault(l.maxPendingEvents, d.maxPendingEvents),
           OrDefault(l.maxPendingMutations, d.maxPendingMutations))
  }

  function Capacity(limits: Limits, requested: int): int {
    if requested < 1 || requested > limits.maxPendingEvents then limits.maxPendingEvents else requested
  }

  function NewEngine(configured: Limits, requested: int): EngineState {
    var limits := EffectiveLimits(configured);
    var capacity := Capacity(limits, requested);
    var maxPending := if capacity < limits.maxPendingMutations then capacity else limits.maxPendingMutations;
    EngineState(NewDocument(), EMPTY, NewQueues(capacity), [], 0, limits, maxPending)
  }

  // ---- steps ----

  function Max0(n: int): nat { if n < 0 then 0 else n }

  function Send(e: EngineState, ev: Event): (EngineState, Reply) {
    var (b, err) := Enqueued(e.broker, ev, Critical);
    (e.(broker := b), match err case None => Fine case Some(code) => Error(code))
  }

  /** The error is reported to the agent as an event; a full queue replaces it by its own error. */
  function EmitError(e: EngineState, op: Operation, code: Code): (EngineState, Reply) {
    var ev := BLANK.(ev := "error", code := Some(code), id := op.id, relatedSeq := Max0(op.opSeq));
    var (after, reply) := Send(e, ev);
    (after, if reply.Fine? then Error(code) else reply)
  }

  /** The accepted operation is installed; a new publication generation or a commit takes a new token. */
  function Advanced(e: EngineState, next: Document, s: Projection, eff: Effect, commit: Commit): EngineState {
    var advance := s.publicationGeneration != e.state.publicationGeneration || eff.commit;
    e.(doc := next, state := s, pending := if eff.commit then e.pending + [commit] else e.pending,
       token := if advance then e.token + 1 else e.token)
  }

  ghost function Install(e: EngineState, op: Operation, next: Document, eff: Effect): (EngineState, Reply)
    requires IsTree(next.nodes)
  {
    if eff.commit && |e.pending| >= e.maxPending then EmitError(e, op, Backpressure)
    else match Reconcile(e.state, e.doc, next, op, eff)
      case Denied(code) => EmitError(e, op, code)
      case Updated(state) =>
        (Advanced(e, next, state, eff, Commit(Max0(op.opSeq), op.frame)), Fine)
  }

  /** `over` is the limit the validator names when a candidate exceeds several. */
  ghost function ApplyOp(e: EngineState, op: Operation, over: Code): (EngineState, Reply)
    requires EngineOk(e)
  {
    match Apply(e.doc, op, e.limits)
    case Failed(code) => EmitError(e, op, code)
    case OverLimits => EmitError(e, op, over)
    case Crashed => (e, Halted)
    case Applied(next, eff) =>
      ApplyTracked(e.doc, op, e.limits);
      Install(e, op, next, eff)
  }

  predicate NeedsShowing(e: EngineState) { NeedsPublish(e.state) || e.pending != [] }

  function Acknowledgement(c: Commit, revision: nat): Event {
    BLANK.(ev := "committed", revision := revision, throughSeq := c.through, frame := c.frame)
  }

  function Acknowledgements(pending: seq<Commit>, revision: nat): seq<Event> {
    seq(|pending|, i requires 0 <= i < |pending| => Acknowledgement(pending[i], revision))
  }

  function ShownRevision(s: Projection): nat {
    if s.dirtyRevision < s.publishedRevision then s.publishedRevision else s.dirtyRevision
  }

  /** All pending commits are acknowledged together or not at all. */
  function PublishAll(e: EngineState): (EngineState, Reply) {
    if !NeedsShowing(e) then (e, Fine)
    else
      var (b, err) := EnqueueBatch(e.broker, Acknowledgements(e.pending, ShownRevision(e.state)));
      if err.Some? then (e, Error(err.value))
      else (e.(broker := b, state := Published(e.state), pending := []), Fine)
  }

  function Acknowledge(e: EngineState, generation: nat): (EngineState, Reply) {
    if generation != e.token || !NeedsShowing(e) then (e, Fine)
    else
      var (after, reply) := PublishAll(e);
      (after, if reply.Fine? then Shown else reply)
  }

  function Local(e: EngineState, r: Reconciled): (EngineState, Reply) {
    match r
    case Denied(code) => (e, Error(code))
    case Updated(s) => (e.(state := s), Fine)
  }

  function Typed(e: EngineState, id: Id, value: string): Reconciled {
    if id !in e.doc.nodes then Denied(NodeNotFound)
    else if !e.doc.nodes[id].kind.Input? then Denied(NotInput)
    else Updated(SetInputValue(e.state, id, value))
  }

  /** What a renderer's call tells the agent. */
  datatype Signal = Refuse(code: Code) | Quiet | Raise(event: Event)

  function Activated(e: EngineState, id: Id): Signal {
    if id !in e.doc.nodes then Refuse(NodeNotFound)
    else if !e.doc.nodes[id].kind.Table? then Refuse(NotTable)
    else if !Selectable(e.doc.nodes[id]) then Refuse(NotSelectable)
    else if id !in e.state.selections then Quiet
    else
      var s := e.state.selections[id];
      Raise(BLANK.(ev := "select", id := id, row := s.index, rowId := s.rowId,
                   action := StringOf(PropJson(e.doc.nodes[id].props, "action"))))
  }

  function Submitted(e: EngineState, id: Id): Signal {
    if id !in e.doc.nodes then Refuse(NodeNotFound)
    else if !e.doc.nodes[id].kind.Input? then Refuse(NotInput)
    else
      Raise(BLANK.(ev := "submit", id := id, value := if id in e.state.inputs then e.state.inputs[id] else "",
                   action := StringOf(PropJson(e.doc.nodes[id].props, "action"))))
  }

  function Reported(outcome: Option<Event>): Signal {
    match outcome case None => Quiet case Some(ev) => Raise(ev)
  }

  function Raised(e: EngineState, s: Signal): (EngineState, Reply) {
    match s
    case Refuse(code) => (e, Error(code))
    case Quiet => (e, Fine)
    case Raise(ev) => Send(e, ev)
  }

  lemma RaisedCases(e: EngineState, s: Signal)
    ensures s.Raise? ==> Raised(e, s) == Send(e, s.event)
    ensures !s.Raise? ==> Raised(e, s).0 == e && !Raised(e, s).1.Sent?
  {
    hide Send;
  }

  lemma SentNothing(e: EngineState, ev: Event)
    ensures !Send(e, ev).1.Sent?
  {
    hide Enqueued;
  }

  ghost function Handed(e: EngineState): (EngineState, Reply) {
    var (b, ev) := Next(e.broker);
    (e.(broker := b), match ev case None => Fine case Some(x) => Sent(x))
  }

  datatype Call =
    | Perform(op: Operation, over: Code)
    | Publish
    | ShowGeneration(generation: nat)
    | NextEvent
    | SetInput(id: Id, value: string)
    | SelectAt(id: Id, index: int)
    | MoveBy(id: Id, delta: int)
    | Activate(id: Id)
    | Submit(id: Id)
    | FocusOn(id: Id)
    | Report(outcome: Option<Event>) // of an action handler; None for a key bound to no action

  /** Action results are `action_result` or `error` events. */
  predicate Allowed(c: Call) {
    c.Report? && c.outcome.Some? ==> c.outcome.value.ev == "action_result" || c.outcome.value.ev == "error"
  }

  ghost function Step(e: EngineState, c: Call): (EngineState, Reply)
    requires EngineOk(e)
  {
    match c
    case Perform(op, over) => ApplyOp(e, op, over)
    case Publish => PublishAll(e)
    case ShowGeneration(g) => Acknowledge(e, g)
    case NextEvent => Handed(e)
    case SetInput(id, value) => Local(e, Typed(e, id, value))
    case SelectAt(id, index) => Local(e, SelectRow(e.state, e.doc.nodes, id, index))
    case MoveBy(id, delta) => Local(e, MoveRow(e.state, e.doc.nodes, id, delta))
    case FocusOn(id) => Local(e, SetLocalFocus(e.state, e.doc.nodes, id))
    case Activate(id) => Raised(e, Activated(e, id))
    case Submit(id) => Raised(e, Submitted(e, id))
    case Report(outcome) => Raised(e, Reported(outcome))
  }

  // ---- the invariant ----

  /** Only critical events are ever queued by the engine. */
  ghost predicate CriticalOnly(b: Queues) {
    1 <= b.cap && |b.critical| <= b.cap && b.coalesced == map[] && b.telemetry == []
  }

  lemma CriticalBounded(b: Queues)
    ensures CriticalOnly(b) ==> Bounded(b) && Depth(b) == |b.critical|
    ensures Bounded(b) && b.coalesced == map[] && b.telemetry == [] ==> CriticalOnly(b)
  {
    SizeNonEmpty(b.coalesced);
  }

  /** The document is sound and the projection agrees with it. */
  ghost predicate DocumentOk(d: Document, s: Projection, limits: Limits) {
    && Sound(d, limits) && ReadyToMove(d.nodes) && 0 <= limits.maxTextBytesPerNode
    && Consistent(s, d)
  }

  /**
   Commits in waiting always fit the queue, whatever waits to be shown has a non-zero token, and
   when nothing waits the published revision is the document's.
   */
  ghost predicate Counted(e: EngineState) {
    && |e.pending| <= e.maxPending <= e.broker.cap
    && (e.pending != [] ==> e.token > 0)
    && e.state.publicationGeneration <= e.token
    && (e.state.publishedGeneration == e.state.publicationGeneration ==>
          e.state.publishedRevision == e.state.dirtyRevision)
  }

  ghost predicate EngineOk(e: EngineState) {
    DocumentOk(e.doc, e.state, e.limits) && CriticalOnly(e.broker) && Counted(e)
  }

  lemma NewOk(configured: Limits, requested: int)
    requires DocumentBytes(NewDocument().nodes) <= EffectiveLimits(configured).maxDocumentBytes
    ensures EngineOk(NewEngine(configured, requested))
  {
    hide *;
    NewParts(configured, requested);
    var limits, e := EffectiveLimits(configured), NewEngine(configured, requested);
    DocumentLaws.NewDocumentValid(limits);
    SoundReady(NewDocument(), limits);
    Preservation.ReadyTree(NewDocument().nodes);
    EmptyConsistent();
    DocumentIsOk(e.doc, e.state, e.limits);
    AllOk(e);
  }

  lemma NewParts(configured: Limits, requested: int)
    ensures var e, limits := NewEngine(configured, requested), EffectiveLimits(configured);
      && e.doc == NewDocument() && e.state == EMPTY && e.limits == limits
      && CriticalOnly(e.broker) && Counted(e)
      && 1 <= limits.maxNodes && 0 <= limits.maxDepth && 0 <= limits.maxChildren
      && 0 <= limits.maxTotalTextBytes && 0 <= limits.maxTextBytesPerNode
  {
    hide NewDocument;
  }

  lemma DocumentIsOk(d: Document, s: Projection, limits: Limits)
    requires Sound(d, limits) && ReadyToMove(d.nodes) && 0 <= limits.maxTextBytesPerNode && Consistent(s, d)
    ensures DocumentOk(d, s, limits)
  {
  }

  lemma AllOk(e: EngineState)
    ensures EngineOk(e) <==> DocumentOk(e.doc, e.state, e.limits) && CriticalOnly(e.broker) && Counted(e)
  {
  }

  lemma EmptyConsistent()
    requires IsTree(NewDocument().nodes)
    ensures Consistent(EMPTY, NewDocument())
  {
  }

  // ---- every step keeps it ----

  lemma SwapBroker(e: EngineState, b: Queues)
    requires EngineOk(e) && CriticalOnly(b) && b.cap == e.broker.cap
    ensures EngineOk(e.(broker := b))
  {
    hide DocumentOk;
    hide CriticalOnly;
  }

  lemma SendQueue(b: Queues, ev: Event)
    requires CriticalOnly(b)
    ensures var (after, err) := Enqueued(b, ev, Critical);
      && CriticalOnly(after) && after.cap == b.cap
      && (err.Some? ==> after == b && err == Some(Backpressure))
      && (err.None? ==> Payloads(after.critical) == Payloads(b.critical) + [Payload(ev)])
  {
    CriticalBounded(b);
    EnqueueBounded(b, ev, Critical);
    CriticalBounded(Enqueued(b, ev, Critical).0);
    PayloadsSnoc(b.critical, Stamped(b, ev));
    assert Payload(Stamped(b, ev)) == Payload(ev);
    hide CriticalOnly;
    hide Bounded;
    hide Payloads;
  }

  lemma SendOk(e: EngineState, ev: Event)
    requires EngineOk(e)
    ensures var r := Send(e, ev);
      && EngineOk(r.0) && r.0 == e.(broker := r.0.broker)
      && (!r.1.Fine? ==> r == (e, Error(Backpressure)))
      && (r.1.Fine? ==> Payloads(r.0.broker.critical) == Payloads(e.broker.critical) + [Payload(ev)])
  {
    SendQueue(e.broker, ev);
    SwapBroker(e, Enqueued(e.broker, ev, Critical).0);
    hide EngineOk;
    hide CriticalOnly;
    hide Enqueued;
    hide Payloads;
  }

  /** The event that tells the agent of a refused operation. */
  predicate ReportsError(ev: Event, op: Operation, code: Code) {
    ev.ev == "error" && ev.code == Some(code) && ev.id == op.id && ev.relatedSeq == Max0(op.opSeq)
  }

  lemma EmitErrorOk(e: EngineState, op: Operation, code: Code)
    requires EngineOk(e)
    ensures var r := EmitError(e, op, code);
      && EngineOk(r.0) && r.0 == e.(broker := r.0.broker) && r.1.Error?
      && (r == (e, Error(Backpressure))
          || exists ev: Event :: ReportsError(ev, op, code) && r == (Send(e, ev).0, Error(code)) && Send(e, ev).1.Fine?)
  {
    var ev := BLANK.(ev := "error", code := Some(code), id := op.id, relatedSeq := Max0(op.opSeq));
    hide EngineOk;
    hide Send;
    SendOk(e, ev);
    hide Payloads;
  }

  /** What reconciliation does to the counters. */
  lemma ReconcileCounters(s: Projection, prev: Document, next: Document, op: Operation, eff: Effect)
    requires IsTree(next.nodes) && Reconcile(s, prev, next, op, eff).Updated?
    ensures var t := Reconcile(s, prev, next, op, eff).state;
      && t.publishedGeneration == s.publishedGeneration && t.publishedRevision == s.publishedRevision
      && s.publicationGeneration <= t.publicationGeneration <= s.publicationGeneration + 1
      && s.renderGeneration <= t.renderGeneration
      && (t.publicationGeneration == s.publicationGeneration ==> t == s && !eff.changed)
  {
    hide IsTree;
    hide Bindings.BuildBindings;
    hide NextInputs;
    hide NextFocus;
    hide ReselectAll;
  }

  lemma InstallOk(e: EngineState, op: Operation, next: Document, eff: Effect)
    requires EngineOk(e) && Sound(next, e.limits) && ReadyToMove(next.nodes)
    requires KindsTracked(e.doc, next, op, eff)
    ensures IsTree(next.nodes) && EngineOk(Install(e, op, next, eff).0)
  {
    hide *;
    Preservation.ReadyTree(next.nodes);
    AllOk(e);
    InstallCases(e, op, next, eff);
    EmitErrorOk(e, op, Backpressure);
    var r := Reconcile(e.state, e.doc, next, op, eff);
    if r.Denied? {
      EmitErrorOk(e, op, r.code);
    } else if !(eff.commit && |e.pending| >= e.maxPending) {
      OkDocument(e.doc, e.state, e.limits);
      ReconcileCounters(e.state, e.doc, next, op, eff);
      ReconcileConsistent(e.state, e.doc, next, op, eff);
      DocumentIsOk(next, r.state, e.limits);
      Installed(e, next, r.state, eff, Commit(Max0(op.opSeq), op.frame));
    }
  }

  lemma OkDocument(d: Document, s: Projection, limits: Limits)
    requires DocumentOk(d, s, limits)
    ensures Sound(d, limits) && ReadyToMove(d.nodes) && IsTree(d.nodes) && 0 <= limits.maxTextBytesPerNode
    ensures Consistent(s, d) && s.publishedGeneration <= s.publicationGeneration
    ensures s.publishedRevision <= s.dirtyRevision == d.revision
  {
    hide Sound;
    hide IsTree;
    hide Bindings.BuildBindings;
    hide InputsFit;
    hide SelectionsFit;
  }

  lemma InstallCases(e: EngineState, op: Operation, next: Document, eff: Effect)
    requires IsTree(next.nodes)
    ensures var r := Reconcile(e.state, e.doc, next, op, eff);
      Install(e, op, next, eff) ==
        if eff.commit && |e.pending| >= e.maxPending then EmitError(e, op, Backpressure)
        else if r.Denied? then EmitError(e, op, r.code)
        else (Advanced(e, next, r.state, eff, Commit(Max0(op.opSeq), op.frame)), Fine)
  {
    hide IsTree;
    hide Reconcile;
    hide EmitError;
  }

  lemma Installed(e: EngineState, next: Document, s: Projection, eff: Effect, commit: Commit)
    requires EngineOk(e) && DocumentOk(next, s, e.limits)
    requires e.state.publicationGeneration <= s.publicationGeneration <= e.state.publicationGeneration + 1
    requires e.state.publicationGeneration == s.publicationGeneration ==> s == e.state
    requires s.publishedGeneration == e.state.publishedGeneration <= e.state.publicationGeneration
    requires eff.commit ==> |e.pending| < e.maxPending
    ensures EngineOk(Advanced(e, next, s, eff, commit))
  {
    hide DocumentOk;
    hide CriticalOnly;
  }

  /** The four ways an operation ends. */
  lemma ApplyCases(e: EngineState, op: Operation, over: Code)
    requires EngineOk(e)
    ensures ReadyToMove(e.doc.nodes)
    ensures match Apply(e.doc, op, e.limits)
      case Failed(code) => ApplyOp(e, op, over) == EmitError(e, op, code)
      case OverLimits => ApplyOp(e, op, over) == EmitError(e, op, over)
      case Crashed => ApplyOp(e, op, over) == (e, Halted)
      case Applied(next, eff) =>
        && Sound(next, e.limits) && ReadyToMove(next.nodes) && IsTree(next.nodes)
        && KindsTracked(e.doc, next, op, eff)
        && ApplyOp(e, op, over) == Install(e, op, next, eff)
  {
    hide Sound;
    hide ReadyToMove;
    hide DocumentOk;
    hide Apply;
    hide IsTree;
    hide Install;
    hide EmitError;
    hide KindsTracked;
    hide CriticalOnly;
    hide Counted;
    OkDocument(e.doc, e.state, e.limits);
    var out := Apply(e.doc, op, e.limits);
    if out.Applied? {
      ApplyTracked(e.doc, op, e.limits);
      Preservation.ReadyTree(out.doc.nodes);
    }
  }

  lemma ApplyOk(e: EngineState, op: Operation, over: Code)
    requires EngineOk(e)
    ensures EngineOk(ApplyOp(e, op, over).0)
  {
    hide *;
    ApplyCases(e, op, over);
    EmitErrorOk(e, op, over);
    var out := Apply(e.doc, op, e.limits);
    if out.Failed? { EmitErrorOk(e, op, out.code); }
    if out.Applied? { InstallOk(e, op, out.doc, out.eff); }
  }

  /** Exactly when publication is refused, and what it does otherwise. */
  lemma PublishExactly(e: EngineState)
    requires EngineOk(e)
    ensures var r := PublishAll(e);
      && EngineOk(r.0) && (r.1.Fine? || r == (e, Error(Backpressure)))
      && (r.1.Error? <==> e.pending != [] && Depth(e.broker) + |e.pending| > e.broker.cap)
      && (r.1.Fine? ==>
            && !NeedsShowing(r.0) && r.0 == e.(broker := r.0.broker, state := Published(e.state), pending := [])
            && Payloads(r.0.broker.critical) == Payloads(e.broker.critical)
                 + Payloads(Acknowledgements(e.pending, e.doc.revision)))
  {
    hide *;
    AllOk(e);
    OkDocument(e.doc, e.state, e.limits);
    PublishedConsistent(e.state, e.doc);
    PublishCases(e);
    var events := Acknowledgements(e.pending, e.doc.revision);
    SendBatch(e.broker, events);
    AcknowledgementCount(e.pending, e.doc.revision);
    if NeedsShowing(e) {
      DocumentIsOk(e.doc, Published(e.state), e.limits);
      PublishedCounts(e, EnqueueBatch(e.broker, events).0);
    } else {
      NothingToShow(e);
      assert events == [] && EnqueueBatch(e.broker, events).0 == e.broker;
      assert EnqueueBatch(e.broker, events).1.None?;
      assert PublishAll(e) == (e, Fine);
      assert Payloads(e.broker.critical) == Payloads(e.broker.critical) + Payloads(events);
      assert PublishAll(e).0.broker == e.broker;
    }
  }

  lemma AcknowledgementCount(pending: seq<Commit>, revision: nat)
    ensures |Acknowledgements(pending, revision)| == |pending|
    ensures pending == [] <==> Acknowledgements(pending, revision) == []
  {
  }

  lemma NothingToShow(e: EngineState)
    requires !NeedsShowing(e) && Counted(e) && e.state.publishedGeneration <= e.state.publicationGeneration
    ensures e == e.(state := Published(e.state), pending := []) && e.pending == []
  {
  }

  lemma PublishCases(e: EngineState)
    requires Consistent(e.state, e.doc)
    ensures var (b, err) := EnqueueBatch(e.broker, Acknowledgements(e.pending, e.doc.revision));
      PublishAll(e) ==
        if !NeedsShowing(e) then (e, Fine)
        else if err.Some? then (e, Error(err.value))
        else (e.(broker := b, state := Published(e.state), pending := []), Fine)
  {
    hide IsTree;
    hide InputsFit;
    hide SelectionsFit;
    hide EnqueueBatch;
    hide Acknowledgements;
  }

  lemma SendBatch(b: Queues, es: seq<Event>)
    requires CriticalOnly(b)
    ensures var (after, err) := EnqueueBatch(b, es);
      && CriticalOnly(after) && after.cap == b.cap
      && (err.Some? <==> es != [] && Depth(b) + |es| > b.cap)
      && (err.Some? ==> after == b && err == Some(Backpressure))
      && (es == [] ==> after == b)
      && (err.None? ==> Payloads(after.critical) == Payloads(b.critical) + Payloads(es))
  {
    CriticalBounded(b);
    BatchBounded(b, es);
    CriticalBounded(EnqueueBatch(b, es).0);
    AppendCriticalIs(b, es);
    hide CriticalOnly;
    hide Bounded;
    hide Payloads;
    hide AppendCritical;
  }

  lemma PublishedCounts(e: EngineState, b: Queues)
    requires EngineOk(e) && CriticalOnly(b) && b.cap == e.broker.cap && DocumentOk(e.doc, Published(e.state), e.limits)
    requires e.state.publishedRevision <= e.state.dirtyRevision
    ensures var after := e.(broker := b, state := Published(e.state), pending := []);
      EngineOk(after) && !NeedsShowing(after)
  {
    hide DocumentOk;
    hide CriticalOnly;
  }

  lemma PublishedConsistent(s: Projection, d: Document)
    requires Consistent(s, d)
    ensures Consistent(Published(s), d)
  {
    hide IsTree;
    hide InputsFit;
    hide SelectionsFit;
  }

  lemma HandedOk(e: EngineState)
    requires EngineOk(e)
    ensures EngineOk(Handed(e).0)
    ensures if e.broker.critical == [] then Handed(e) == (e, Fine)
      else && Handed(e).1 == Sent(Delivered(e.broker, e.broker.critical[0]))
           && Handed(e).0 ==
                e.(broker := e.broker.(nextSeq := e.broker.nextSeq + 1, critical := e.broker.critical[1..]))
  {
    hide *;
    AllOk(e);
    NextCritical(e.broker);
    HandedIs(e);
    SwapBroker(e, Next(e.broker).0);
  }

  lemma HandedIs(e: EngineState)
    ensures Handed(e) ==
      (e.(broker := Next(e.broker).0), if Next(e.broker).1.None? then Fine else Sent(Next(e.broker).1.value))
  {
    hide Next;
  }

  lemma NextCritical(b: Queues)
    requires CriticalOnly(b)
    ensures CriticalOnly(Next(b).0)
    ensures Next(b) == if b.critical == [] then (b, None)
      else (b.(nextSeq := b.nextSeq + 1, critical := b.critical[1..]), Some(Delivered(b, b.critical[0])))
  {
    CriticalBounded(b);
    NextBounded(b);
    CriticalBounded(Next(b).0);
    hide Bounded;
  }

  predicate IsLocal(c: Call) { c.SetInput? || c.SelectAt? || c.MoveBy? || c.FocusOn? }
  predicate IsSignal(c: Call) { c.Activate? || c.Submit? || c.Report? }

  function Interacted(e: EngineState, c: Call): Reconciled
    requires IsLocal(c)
  {
    match c
    case SetInput(id, value) => Typed(e, id, value)
    case SelectAt(id, index) => SelectRow(e.state, e.doc.nodes, id, index)
    case MoveBy(id, delta) => MoveRow(e.state, e.doc.nodes, id, delta)
    case FocusOn(id) => SetLocalFocus(e.state, e.doc.nodes, id)
  }

  function Signalled(e: EngineState, c: Call): Signal
    requires IsSignal(c)
  {
    match c
    case Activate(id) => Activated(e, id)
    case Submit(id) => Submitted(e, id)
    case Report(outcome) => Reported(outcome)
  }

  /** The generations and the key bindings are not a renderer's to change. */
  predicate SameGenerations(s: Projection, t: Projection) {
    && t.publicationGeneration == s.publicationGeneration
    && t.publishedGeneration == s.publishedGeneration
    && t.dirtyRevision == s.dirtyRevision && t.publishedRevision == s.publishedRevision
    && t.bindings == s.bindings && t.renderGeneration >= s.renderGeneration
  }

  lemma InteractedKeeps(e: EngineState, c: Call)
    requires EngineOk(e) && IsLocal(c)
    ensures var r := Interacted(e, c);
      r.Updated? ==> SameGenerations(e.state, r.state) && DocumentOk(e.doc, r.state, e.limits)
  {
    hide *;
    AllOk(e);
    OkDocument(e.doc, e.state, e.limits);
    InteractedGenerations(e, c);
    InteractedConsistent(e, c);
    var r := Interacted(e, c);
    if r.Updated? { DocumentIsOk(e.doc, r.state, e.limits); }
  }

  lemma InteractedGenerations(e: EngineState, c: Call)
    requires IsLocal(c)
    ensures var r := Interacted(e, c);
      r.Updated? ==> SameGenerations(e.state, r.state)
  {
    hide Focusable;
    hide Selectable;
    hide SelectionAt;
  }

  lemma InteractedConsistent(e: EngineState, c: Call)
    requires Consistent(e.state, e.doc) && IsLocal(c)
    ensures var r := Interacted(e, c);
      r.Updated? ==> Consistent(r.state, e.doc)
  {
    hide Consistent;
    hide SetInputValue;
    hide SelectRow;
    hide MoveRow;
    hide SetLocalFocus;
    match c {
      case SetInput(id, value) =>
        if id in e.doc.nodes && e.doc.nodes[id].kind.Input? { TypingConsistent(e.state, e.doc, id, value); }
      case SelectAt(id, index) => SelectingConsistent(e.state, e.doc, id, index);
      case MoveBy(id, delta) => MovingConsistent(e.state, e.doc, id, delta);
      case FocusOn(id) => FocusConsistent(e.state, e.doc, id);
    }
  }

  lemma LocalIs(e: EngineState, c: Call)
    requires EngineOk(e) && IsLocal(c)
    ensures var r := Interacted(e, c);
      Step(e, c) == if r.Denied? then (e, Error(r.code)) else (e.(state := r.state), Fine)
  {
    hide EngineOk;
    hide Typed;
    hide SelectRow;
    hide MoveRow;
    hide SetLocalFocus;
  }

  lemma SwapState(e: EngineState, s: Projection)
    requires EngineOk(e) && DocumentOk(e.doc, s, e.limits) && SameGenerations(e.state, s)
    ensures EngineOk(e.(state := s))
  {
    hide CriticalOnly;
    hide DocumentOk;
  }

  lemma LocalOk(e: EngineState, c: Call)
    requires EngineOk(e) && IsLocal(c)
    ensures EngineOk(Step(e, c).0)
  {
    hide *;
    LocalIs(e, c);
    InteractedKeeps(e, c);
    var r := Interacted(e, c);
    if r.Updated? { SwapState(e, r.state); }
  }

  lemma SignalOk(e: EngineState, c: Call)
    requires EngineOk(e) && IsSignal(c)
    ensures EngineOk(Step(e, c).0)
    ensures Step(e, c) == Raised(e, Signalled(e, c))
  {
    hide EngineOk;
    hide Send;
    hide Activated;
    hide Submitted;
    var s := Signalled(e, c);
    if s.Raise? { SendOk(e, s.event); }
    hide Payloads;
  }

  lemma StepOk(e: EngineState, c: Call)
    requires EngineOk(e)
    ensures EngineOk(Step(e, c).0)
  {
    hide *;
    StepCases(e, c);
    match c {
      case Perform(op, over) => ApplyOk(e, op, over);
      case Publish => PublishExactly(e);
      case ShowGeneration(g) => PublishExactly(e); ShowCases(e, g);
      case NextEvent => HandedOk(e);
      case SetInput(_, _) => ItIsLocal(c); LocalOk(e, c);
      case SelectAt(_, _) => ItIsLocal(c); LocalOk(e, c);
      case MoveBy(_, _) => ItIsLocal(c); LocalOk(e, c);
      case FocusOn(_) => ItIsLocal(c); LocalOk(e, c);
      case Activate(_) => ItIsLocal(c); SignalOk(e, c);
      case Submit(_) => ItIsLocal(c); SignalOk(e, c);
      case Report(_) => ItIsLocal(c); SignalOk(e, c);
    }
  }

  lemma ItIsLocal(c: Call)
    ensures IsLocal(c) <==> c.SetInput? || c.SelectAt? || c.MoveBy? || c.FocusOn?
    ensures IsSignal(c) <==> c.Activate? || c.Submit? || c.Report?
  {
  }

  lemma StepCases(e: EngineState, c: Call)
    requires EngineOk(e)
    ensures match c
      case Perform(op, over) => Step(e, c) == ApplyOp(e, op, over)
      case Publish => Step(e, c) == PublishAll(e)
      case ShowGeneration(g) => Step(e, c) == Acknowledge(e, g)
      case NextEvent => Step(e, c) == Handed(e)
      case _ => IsLocal(c) || IsSignal(c)
  {
    hide EngineOk;
    hide ApplyOp;
    hide PublishAll;
    hide Acknowledge;
    hide Handed;
  }

  lemma ShowCases(e: EngineState, g: nat)
    ensures Acknowledge(e, g) ==
      if g != e.token || !NeedsShowing(e) then (e, Fine)
      else if PublishAll(e).1.Fine? then (PublishAll(e).0, Shown) else PublishAll(e)
  {
    hide PublishAll;
  }
}

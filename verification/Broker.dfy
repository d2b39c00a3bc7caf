/** The bounded event broker (runtime/events.go): three classes, one capacity, one delivery sequence. */
module Broker {
  import opened Sequences
  import opened Forests
  import opened Protocol

  datatype EventClass = Critical | Coalescible | Telemetry | OtherClass

  /** `number` is the enqueue stamp while queued and the delivery sequence once delivered. */
  datatype Event = Event(
    v: int, number: nat, ev: string, id: Id, code: Option<Code>, action: string, value: string,
    row: int, rowId: string, revision: nat, relatedSeq: nat, throughSeq: nat, frame: string)

  const BLANK := Event(0, 0, "", "", None, "", "", 0, "", 0, 0, 0, "")

  datatype Queues = Queues(
    cap: nat, nextOrder: nat, nextSeq: nat,
    critical: seq<Event>, coalesced: map<string, Event>, telemetry: seq<Event>)

  /** What the producer handed over. */
  function Payload(e: Event): Event { e.(v := 0, number := 0) }

  function Payloads(es: seq<Event>): seq<Event> {
    seq(|es|, i requires 0 <= i < |es| => Payload(es[i]))
  }

  function NewQueues(capacity: int): Queues {
    Queues(if capacity < 1 then 1 else capacity, 0, 0, [], map[], [])
  }

  function Depth(b: Queues): nat { |b.critical| + |b.coalesced| + |b.telemetry| }

  function CoalescingKey(e: Event): string { e.ev + "|" + e.id }

  /** The next stamp goes on the event. */
  function Stamped(b: Queues, e: Event): Event { e.(number := b.nextOrder + 1) }

  function Enqueued(b: Queues, e: Event, class_: EventClass): (Queues, Result) {
    var full := Depth(b) >= b.cap;
    var next := b.(nextOrder := b.nextOrder + 1);
    match class_
    case Critical =>
      if full then (b, Some(Backpressure)) else (next.(critical := b.critical + [Stamped(b, e)]), None)
    case Coalescible =>
      if CoalescingKey(e) !in b.coalesced && full then (b, Some(Backpressure))
      else (next.(coalesced := b.coalesced[CoalescingKey(e) := Stamped(b, e)]), None)
    case Telemetry =>
      if full && b.telemetry == [] then (b, None)
      else
        var room := if full then b.telemetry[1..] else b.telemetry;
        (next.(telemetry := room + [Stamped(b, e)]), None)
    case OtherClass => (b, Some(InvalidEventClass))
  }

  function AppendCritical(b: Queues, es: seq<Event>): Queues
    decreases |es|
  {
    if es == [] then b
    else AppendCritical(b.(nextOrder := b.nextOrder + 1, critical := b.critical + [Stamped(b, es[0])]), es[1..])
  }

  /** All or nothing. */
  function EnqueueBatch(b: Queues, es: seq<Event>): (Queues, Result) {
    if es == [] then (b, None)
    else if Depth(b) + |es| > b.cap then (b, Some(Backpressure))
    else (AppendCritical(b, es), None)
  }

  function Delivered(b: Queues, e: Event): Event { e.(v := VERSION, number := b.nextSeq + 1) }

  /** The key whose event was enqueued first. */
  ghost function Oldest(m: map<string, Event>): (k: string)
    requires m != map[]
    ensures k in m && forall j :: j in m ==> m[k].number <= m[j].number
  {
    OldestExists(m, m.Keys);
    var k :| k in m.Keys && forall j :: j in m.Keys ==> m[k].number <= m[j].number;
    k
  }

  lemma {:induction false} OldestExists(m: map<string, Event>, keys: set<string>)
    requires keys != {} && keys <= m.Keys
    ensures exists k :: k in keys && forall j :: j in keys ==> m[k].number <= m[j].number
    decreases |keys|
  {
    var k :| k in keys;
    var rest := keys - {k};
    if rest != {} {
      OldestExists(m, rest);
      var o :| o in rest && forall j :: j in rest ==> m[o].number <= m[j].number;
      var least := if m[k].number <= m[o].number then k else o;
      assert least in keys && forall j :: j in keys ==> j == k || j in rest;
    } else {
      assert keys == {k};
    }
  }

  /** The stamps are distinct, so only one event is the oldest. */
  lemma OldestIs(b: Queues, k: string)
    requires Bounded(b) && k in b.coalesced
    requires forall j :: j in b.coalesced ==> b.coalesced[k].number <= b.coalesced[j].number
    ensures b.coalesced != map[] && Oldest(b.coalesced) == k
  {
  }

  lemma FewerKeys(m: map<string, Event>, k: string)
    requires k in m
    ensures |m - {k}| == |m| - 1
  {
    assert (m - {k}).Keys == m.Keys - {k};
  }

  ghost function Next(b: Queues): (Queues, Option<Event>) {
    var after := b.(nextSeq := b.nextSeq + 1);
    if b.critical != [] then (after.(critical := b.critical[1..]), Some(Delivered(b, b.critical[0])))
    else if b.coalesced != map[] then
      var k := Oldest(b.coalesced);
      (after.(coalesced := b.coalesced - {k}), Some(Delivered(b, b.coalesced[k])))
    else if b.telemetry != [] then (after.(telemetry := b.telemetry[1..]), Some(Delivered(b, b.telemetry[0])))
    else (b, None)
  }

  // ---- invariant ----

  /** The capacity holds, and queued coalescible events carry distinct stamps. */
  ghost predicate Bounded(b: Queues) {
    && 1 <= b.cap && Depth(b) <= b.cap
    && (forall k :: k in b.coalesced ==> k != "" && b.coalesced[k].number <= b.nextOrder)
    && forall j, k :: j in b.coalesced && k in b.coalesced && j != k
         ==> b.coalesced[j].number != b.coalesced[k].number
  }

  lemma NewBounded(capacity: int)
    ensures Bounded(NewQueues(capacity)) && Depth(NewQueues(capacity)) == 0
  {
  }

  lemma EnqueueBounded(b: Queues, e: Event, class_: EventClass)
    requires Bounded(b)
    ensures Bounded(Enqueued(b, e, class_).0)
    ensures Enqueued(b, e, class_).1.Some? ==> Enqueued(b, e, class_).0 == b
  {
    var k := CoalescingKey(e);
    assert k != "";
    var m := b.coalesced[k := Stamped(b, e)];
    assert |m| == if k in b.coalesced then |b.coalesced| else |b.coalesced| + 1;
  }

  lemma {:induction false} AppendCriticalIs(b: Queues, es: seq<Event>)
    ensures var r := AppendCritical(b, es);
      && r == b.(nextOrder := b.nextOrder + |es|, critical := r.critical)
      && Payloads(r.critical) == Payloads(b.critical) + Payloads(es)
    decreases |es|
  {
    if es != [] {
      var b' := b.(nextOrder := b.nextOrder + 1, critical := b.critical + [Stamped(b, es[0])]);
      AppendCriticalIs(b', es[1..]);
      PayloadsSnoc(b.critical, Stamped(b, es[0]));
      PayloadsCons(es);
      assert Payload(Stamped(b, es[0])) == Payload(es[0]);
      assert Payloads(b.critical) + [Payload(es[0])] + Payloads(es[1..]) == Payloads(b.critical) + Payloads(es);
    } else {
      assert Payloads(b.critical) + Payloads(es) == Payloads(b.critical);
    }
  }

  lemma PayloadsSnoc(es: seq<Event>, e: Event)
    ensures Payloads(es + [e]) == Payloads(es) + [Payload(e)]
  {
  }

  lemma PayloadsCons(es: seq<Event>)
    requires es != []
    ensures Payloads(es) == [Payload(es[0])] + Payloads(es[1..])
  {
  }

  lemma BatchBounded(b: Queues, es: seq<Event>)
    requires Bounded(b)
    ensures var r := EnqueueBatch(b, es);
      && Bounded(r.0)
      && (r.1.Some? <==> es != [] && Depth(b) + |es| > b.cap)
      && (r.1.Some? ==> r.0 == b)
      && (r.1.None? ==> Payloads(r.0.critical) == Payloads(b.critical) + Payloads(es) && Depth(r.0) == Depth(b) + |es|)
  {
    AppendCriticalIs(b, es);
    var r := AppendCritical(b, es);
    assert |Payloads(r.critical)| == |b.critical| + |es|;
    if es == [] { assert Payloads(b.critical) + Payloads(es) == Payloads(b.critical); }
  }

  lemma NextBounded(b: Queues)
    requires Bounded(b)
    ensures var r := Next(b);
      && Bounded(r.0)
      && (r.1.None? <==> Depth(b) == 0)
      && (r.1.None? ==> r.0 == b)
      && (r.1.Some? ==> Depth(r.0) + 1 == Depth(b) && r.1.value.number == b.nextSeq + 1 && r.0.nextSeq == b.nextSeq + 1)
  {
    if b.critical == [] && b.coalesced != map[] {
      var k := Oldest(b.coalesced);
      FewerKeys(b.coalesced, k);
    }
    if b.coalesced == map[] { assert |b.coalesced| == 0; }
    if |b.coalesced| == 0 { assert b.coalesced.Keys == {}; assert b.coalesced == map[]; }
  }

  // ---- whole runs ----

  datatype Call = Put(e: Event, class_: EventClass) | PutAll(es: seq<Event>) | Take

  /** A coalescible event was accepted, or it was handed out as the delivery at this position. */
  datatype Mark = Offered(e: Event) | Emitted(e: Event, at: nat)

  /** Critical events accepted and delivered, everything delivered, and the story of the coalescible events. */
  datatype History = History(accepted: seq<Event>, taken: seq<Event>, delivered: seq<Event>, marks: seq<Mark>)

  const NO_HISTORY := History([], [], [], [])

  ghost function Step(b: Queues, h: History, c: Call): (Queues, History) {
    match c
    case Put(e, class_) =>
      var (after, err) := Enqueued(b, e, class_);
      (after,
       if err.None? && class_ == Critical then h.(accepted := h.accepted + [Payload(e)])
       else if err.None? && class_ == Coalescible then h.(marks := h.marks + [Offered(Stamped(b, e))])
       else h)
    case PutAll(es) =>
      var (after, err) := EnqueueBatch(b, es);
      (after, if err.None? then h.(accepted := h.accepted + Payloads(es)) else h)
    case Take =>
      var (after, e) := Next(b);
      (after,
       if e.None? then h
       else h.(delivered := h.delivered + [e.value],
               taken := if b.critical != [] then h.taken + [Payload(e.value)] else h.taken,
               marks := if b.critical == [] && b.coalesced != map[]
                        then h.marks + [Emitted(b.coalesced[Oldest(b.coalesced)], |h.delivered|)] else h.marks))
  }

  ghost function RunFrom(b: Queues, h: History, calls: seq<Call>): (Queues, History)
    decreases |calls|
  {
    if calls == [] then (b, h)
    else
      var (b', h') := Step(b, h, calls[0]);
      RunFrom(b', h', calls[1..])
  }

  /** Nothing critical is lost or reordered, and the delivery sequence has no gap. */
  ghost predicate Faithful(b: Queues, h: History) {
    && Bounded(b)
    && h.accepted == h.taken + Payloads(b.critical)
    && |h.delivered| == b.nextSeq
    && forall i :: 0 <= i < |h.delivered| ==> h.delivered[i].number == i + 1
  }

  lemma StepFaithful(b: Queues, h: History, c: Call)
    requires Faithful(b, h)
    ensures Faithful(Step(b, h, c).0, Step(b, h, c).1)
  {
    match c {
      case Put(e, class_) =>
        EnqueueBounded(b, e, class_);
        PayloadsSnoc(b.critical, Stamped(b, e));
        assert Payload(Stamped(b, e)) == Payload(e);
        ConcatAssoc(h.taken, Payloads(b.critical), [Payload(e)]);
        hide Bounded;
        hide Payloads;
      case PutAll(es) =>
        BatchBounded(b, es);
        AppendCriticalIs(b, es);
        ConcatAssoc(h.taken, Payloads(b.critical), Payloads(es));
        hide Bounded;
        hide Payloads;
      case Take =>
        NextBounded(b);
        if b.critical != [] {
          PayloadsCons(b.critical);
          assert Payload(Delivered(b, b.critical[0])) == Payload(b.critical[0]);
          ConcatAssoc(h.taken, [Payload(b.critical[0])], Payloads(b.critical[1..]));
        }
        hide Bounded;
        hide Payloads;
    }
  }

  /**
   Whatever is called in whatever order: the capacity is never exceeded, the critical events accepted
   are those delivered followed by those queued, in order, and delivery numbers are 1, 2, 3, ...
   */
  lemma {:induction false} RunFaithful(b: Queues, h: History, calls: seq<Call>)
    requires Faithful(b, h)
    ensures Faithful(RunFrom(b, h, calls).0, RunFrom(b, h, calls).1)
    decreases |calls|
  {
    if calls != [] {
      StepFaithful(b, h, calls[0]);
      RunFaithful(Step(b, h, calls[0]).0, Step(b, h, calls[0]).1, calls[1..]);
    }
  }

  lemma NewFaithful(capacity: int)
    ensures Faithful(NewQueues(capacity), NO_HISTORY)
  {
    NewBounded(capacity);
  }

  /** Critical events are conserved in order, and each coalescible event has one fate. */
  lemma BrokerRuns(capacity: int, calls: seq<Call>)
    ensures var (b, h) := RunFrom(NewQueues(capacity), NO_HISTORY, calls);
      Faithful(b, h) && Accounted(b, h) && b.cap == NewQueues(capacity).cap
  {
    NewCoalesces(capacity);
    NewFaithful(capacity);
    hide *;
    var b := NewQueues(capacity);
    RunFaithful(b, NO_HISTORY, calls);
    RunCoalesces(b, NO_HISTORY, calls);
    RunKeepsCap(b, NO_HISTORY, calls);
    EachAccounted(RunFrom(b, NO_HISTORY, calls).0, RunFrom(b, NO_HISTORY, calls).1);
  }

  lemma {:induction false} RunKeepsCap(b: Queues, h: History, calls: seq<Call>)
    ensures RunFrom(b, h, calls).0.cap == b.cap
    decreases |calls|
  {
    if calls != [] {
      if calls[0].PutAll? { AppendCriticalIs(b, calls[0].es); }
      RunKeepsCap(Step(b, h, calls[0]).0, Step(b, h, calls[0]).1, calls[1..]);
    }
  }

  // ---- coalescible events ----

  function Key(m: Mark): string { CoalescingKey(m.e) }

  /** The last thing that happened to a key, or -1. */
  function Last(marks: seq<Mark>, k: string): (i: int)
    ensures -1 <= i < |marks| && (i >= 0 ==> Key(marks[i]) == k)
    ensures forall t :: i < t < |marks| ==> Key(marks[t]) != k
  {
    if marks == [] then -1
    else if Key(marks[|marks| - 1]) == k then |marks| - 1
    else Last(marks[..|marks| - 1], k)
  }

  /** The next thing that happens to a key from a position on, or the end. */
  function NextUse(marks: seq<Mark>, k: string, from: nat): (j: nat)
    requires from <= |marks|
    ensures from <= j <= |marks| && (j < |marks| ==> Key(marks[j]) == k)
    ensures forall t :: from <= t < j ==> Key(marks[t]) != k
    decreases |marks| - from
  {
    if from == |marks| || Key(marks[from]) == k then from else NextUse(marks, k, from + 1)
  }

  /** The delivery a mark speaks of: the event as it was queued, renumbered. */
  predicate Delivers(h: History, m: Mark) {
    m.Emitted? ==> m.at < |h.delivered| && h.delivered[m.at] == m.e.(v := VERSION, number := m.at + 1)
  }

  /** The queue holds, under each key, the event offered last, unless that was handed out since. */
  ghost predicate Tracks(m: map<string, Event>, marks: seq<Mark>) {
    forall k ::
      var i := Last(marks, k);
      if i >= 0 && marks[i].Offered? then k in m && m[k] == marks[i].e else k !in m
  }

  ghost predicate Coalesces(b: Queues, h: History) {
    && Tracks(b.coalesced, h.marks)
    && (forall j :: 0 <= j < |h.marks| ==> FromQueue(h.marks, j) && Delivers(h, h.marks[j]))
    && Successive(h.marks)
  }

  /** No delivery is counted twice. */
  predicate Successive(marks: seq<Mark>) {
    forall i, j :: 0 <= i < j < |marks| && marks[i].Emitted? && marks[j].Emitted? ==> marks[i].at < marks[j].at
  }

  /** What was handed out is what was offered last under its key. */
  predicate FromQueue(marks: seq<Mark>, j: nat)
    requires j < |marks|
  {
    marks[j].Emitted? ==>
      var i := Last(marks[..j], Key(marks[j]));
      i >= 0 && marks[i] == Offered(marks[j].e)
  }

  /**
   Every coalescible event that was accepted is still queued, or the next thing that happened to its
   key is that another event replaced it, or that it was delivered; and whatever was delivered or is
   queued was accepted, with nothing else happening to its key in between.
   */
  ghost predicate Accounted(b: Queues, h: History) {
    && (forall i :: 0 <= i < |h.marks| && h.marks[i].Offered? ==>
          var k := Key(h.marks[i]);
          var j := NextUse(h.marks, k, i + 1);
          if j == |h.marks| then k in b.coalesced && b.coalesced[k] == h.marks[i].e
          else h.marks[j].Offered? || h.marks[j].e == h.marks[i].e)
    && (forall j :: 0 <= j < |h.marks| && h.marks[j].Emitted? ==> Delivers(h, h.marks[j]) && OfferedBefore(h.marks, j))
    && (forall k :: k in b.coalesced ==>
          exists i :: 0 <= i < |h.marks| && h.marks[i] == Offered(b.coalesced[k])
                      && NextUse(h.marks, k, i + 1) == |h.marks|)
    && Successive(h.marks)
  }

  ghost predicate OfferedBefore(marks: seq<Mark>, j: nat)
    requires j < |marks|
  {
    exists i :: 0 <= i < j && marks[i] == Offered(marks[j].e) && NextUse(marks, Key(marks[j]), i + 1) == j
  }

  lemma LastSnoc(marks: seq<Mark>, m: Mark, k: string)
    ensures Last(marks + [m], k) == if Key(m) == k then |marks| else Last(marks, k)
  {
    assert (marks + [m])[..|marks|] == marks;
  }

  lemma NewCoalesces(capacity: int)
    ensures Coalesces(NewQueues(capacity), NO_HISTORY)
  {
  }

  /** One more mark, made at the end of the story. */
  lemma Marked(h: History, h': History, m: Mark)
    requires h'.marks == h.marks + [m]
    requires |h.delivered| <= |h'.delivered| && h'.delivered[..|h.delivered|] == h.delivered
    requires forall j :: 0 <= j < |h.marks| ==> FromQueue(h.marks, j) && Delivers(h, h.marks[j])
    requires Delivers(h', m)
    requires m.Emitted? ==> Last(h.marks, Key(m)) >= 0 && h.marks[Last(h.marks, Key(m))] == Offered(m.e)
    ensures forall j :: 0 <= j < |h'.marks| ==> FromQueue(h'.marks, j) && Delivers(h', h'.marks[j])
  {
    forall j | 0 <= j < |h'.marks| ensures FromQueue(h'.marks, j) && Delivers(h', h'.marks[j]) {
      if j < |h.marks| {
        assert h'.marks[..j] == h.marks[..j] && h'.marks[j] == h.marks[j];
        assert FromQueue(h.marks, j) && Delivers(h, h.marks[j]);
        if h.marks[j].Emitted? { assert h'.delivered[h.marks[j].at] == h.delivered[h.marks[j].at]; }
      } else {
        assert h'.marks[..j] == h.marks && h'.marks[j] == m;
      }
    }
  }

  lemma TracksOffer(m: map<string, Event>, marks: seq<Mark>, e: Event)
    requires Tracks(m, marks)
    ensures Tracks(m[CoalescingKey(e) := e], marks + [Offered(e)])
  {
    forall k ensures Last(marks + [Offered(e)], k) == if CoalescingKey(e) == k then |marks| else Last(marks, k) {
      LastSnoc(marks, Offered(e), k);
    }
    hide Last;
    hide CoalescingKey;
  }

  lemma TracksEmit(m: map<string, Event>, marks: seq<Mark>, k: string, at: nat)
    requires Tracks(m, marks) && k in m
    ensures CoalescingKey(m[k]) == k && Last(marks, k) >= 0 && marks[Last(marks, k)] == Offered(m[k])
    ensures Tracks(m - {k}, marks + [Emitted(m[k], at)])
  {
    hide *;
    TrackedAt(m, marks, k);
    var marks' := marks + [Emitted(m[k], at)];
    forall x
      ensures var i := Last(marks', x);
        if i >= 0 && marks'[i].Offered? then x in m - {k} && (m - {k})[x] == marks'[i].e else x !in m - {k}
    {
      LastSnoc(marks, Emitted(m[k], at), x);
      EmittedKey(m[k], at);
      TrackedAt(m, marks, x);
    }
    TracksAll(m - {k}, marks');
  }

  lemma TrackedAt(m: map<string, Event>, marks: seq<Mark>, k: string)
    requires Tracks(m, marks)
    ensures var i := Last(marks, k);
      if i >= 0 && marks[i].Offered? then k in m && m[k] == marks[i].e && CoalescingKey(m[k]) == k else k !in m
  {
    hide CoalescingKey;
    hide Last;
  }

  lemma EmittedKey(e: Event, at: nat)
    ensures Key(Emitted(e, at)) == CoalescingKey(e)
  {
  }

  lemma TracksAll(m: map<string, Event>, marks: seq<Mark>)
    requires forall k ::
      var i := Last(marks, k);
      if i >= 0 && marks[i].Offered? then k in m && m[k] == marks[i].e else k !in m
    ensures Tracks(m, marks)
  {
    hide Last;
  }

  lemma SuccessiveSnoc(h: History, m: Mark)
    requires Successive(h.marks) && (m.Emitted? ==> m.at == |h.delivered|)
    requires forall j :: 0 <= j < |h.marks| ==> Delivers(h, h.marks[j])
    ensures Successive(h.marks + [m])
  {
  }

  lemma OfferCoalesces(b: Queues, h: History, b': Queues, e: Event)
    requires Coalesces(b, h) && b'.coalesced == b.coalesced[CoalescingKey(e) := e]
    ensures Coalesces(b', h.(marks := h.marks + [Offered(e)]))
  {
    TracksOffer(b.coalesced, h.marks, e);
    Marked(h, h.(marks := h.marks + [Offered(e)]), Offered(e));
    SuccessiveSnoc(h, Offered(e));
    hide Tracks;
    hide FromQueue;
    hide Delivers;
    hide Successive;
  }

  lemma EmitCoalesces(b: Queues, h: History, b': Queues, h': History, k: string)
    requires Coalesces(b, h) && k in b.coalesced && |h.delivered| == b.nextSeq
    requires b'.coalesced == b.coalesced - {k} && h'.delivered == h.delivered + [Delivered(b, b.coalesced[k])]
    requires h'.marks == h.marks + [Emitted(b.coalesced[k], |h.delivered|)]
    ensures Coalesces(b', h')
  {
    var m := Emitted(b.coalesced[k], |h.delivered|);
    assert Delivers(h', m);
    TracksEmit(b.coalesced, h.marks, k, |h.delivered|);
    hide Tracks;
    Marked(h, h', m);
    SuccessiveSnoc(h, m);
    hide FromQueue;
    hide Delivers;
    hide Successive;
  }

  /** Another delivery, or a change of the other queues, does not matter here. */
  lemma OtherCoalesces(b: Queues, h: History, b': Queues, h': History)
    requires Coalesces(b, h) && b'.coalesced == b.coalesced && h'.marks == h.marks
    requires |h.delivered| <= |h'.delivered| && h'.delivered[..|h.delivered|] == h.delivered
    ensures Coalesces(b', h')
  {
    forall j | 0 <= j < |h.marks| ensures Delivers(h', h.marks[j]) {
      assert Delivers(h, h.marks[j]);
      if h.marks[j].Emitted? { assert h'.delivered[h.marks[j].at] == h.delivered[h.marks[j].at]; }
    }
    hide Tracks;
    hide FromQueue;
  }

  /** What a step does to the coalescible events. */
  lemma StepMarks(b: Queues, h: History, c: Call)
    ensures var (b', h') := Step(b, h, c);
      || (b'.coalesced == b.coalesced && h'.marks == h.marks
          && |h.delivered| <= |h'.delivered| && h'.delivered[..|h.delivered|] == h.delivered)
      || (c.Put? && h' == h.(marks := h.marks + [Offered(Stamped(b, c.e))])
          && b'.coalesced == b.coalesced[CoalescingKey(Stamped(b, c.e)) := Stamped(b, c.e)])
      || (b.coalesced != map[]
          && var k := Oldest(b.coalesced);
             && b'.coalesced == b.coalesced - {k} && h'.delivered == h.delivered + [Delivered(b, b.coalesced[k])]
             && h'.marks == h.marks + [Emitted(b.coalesced[k], |h.delivered|)])
  {
    if c.PutAll? { AppendCriticalIs(b, c.es); }
    hide Oldest;
    hide Payloads;
  }

  lemma StepCoalesces(b: Queues, h: History, c: Call)
    requires |h.delivered| == b.nextSeq && Coalesces(b, h)
    ensures Coalesces(Step(b, h, c).0, Step(b, h, c).1)
  {
    StepMarks(b, h, c);
    hide *;
    var (b', h') := Step(b, h, c);
    if b'.coalesced == b.coalesced && h'.marks == h.marks
       && |h.delivered| <= |h'.delivered| && h'.delivered[..|h.delivered|] == h.delivered {
      OtherCoalesces(b, h, b', h');
    } else if c.Put? && h' == h.(marks := h.marks + [Offered(Stamped(b, c.e))]) {
      OfferCoalesces(b, h, b', Stamped(b, c.e));
    } else {
      EmitCoalesces(b, h, b', h', Oldest(b.coalesced));
    }
  }

  lemma {:induction false} RunCoalesces(b: Queues, h: History, calls: seq<Call>)
    requires Faithful(b, h) && Coalesces(b, h)
    ensures Coalesces(RunFrom(b, h, calls).0, RunFrom(b, h, calls).1)
    decreases |calls|
  {
    if calls != [] {
      StepFaithful(b, h, calls[0]);
      StepCoalesces(b, h, calls[0]);
      RunCoalesces(Step(b, h, calls[0]).0, Step(b, h, calls[0]).1, calls[1..]);
    }
  }

  /** Two neighbouring uses of a key find each other. */
  lemma Neighbours(marks: seq<Mark>, i: nat, j: nat)
    requires i < j <= |marks| && (j < |marks| ==> Key(marks[j]) == Key(marks[i]))
    ensures Last(marks[..j], Key(marks[i])) == i <==> NextUse(marks, Key(marks[i]), i + 1) == j
  {
    var k := Key(marks[i]);
    var front, l, n := marks[..j], Last(marks[..j], k), NextUse(marks, k, i + 1);
    assert front[i] == marks[i];
    assert forall t :: 0 <= t < j ==> front[t] == marks[t];
    hide Last;
    hide NextUse;
  }

  lemma EachAccounted(b: Queues, h: History)
    requires Coalesces(b, h)
    ensures Accounted(b, h)
  {
    var marks := h.marks;
    hide Last;
    hide NextUse;
    assert marks[..|marks|] == marks;
    forall i | 0 <= i < |marks| && marks[i].Offered?
      ensures var k := Key(marks[i]);
        var j := NextUse(marks, k, i + 1);
        if j == |marks| then k in b.coalesced && b.coalesced[k] == marks[i].e
        else marks[j].Offered? || marks[j].e == marks[i].e
    {
      var j := NextUse(marks, Key(marks[i]), i + 1);
      Neighbours(marks, i, j);
      if j < |marks| { assert FromQueue(marks, j); }
    }
    forall j | 0 <= j < |marks| && marks[j].Emitted? ensures OfferedBefore(marks, j) {
      assert FromQueue(marks, j);
      Neighbours(marks, Last(marks[..j], Key(marks[j])), j);
    }
    forall k | k in b.coalesced
      ensures exists i :: 0 <= i < |marks| && marks[i] == Offered(b.coalesced[k])
                          && NextUse(marks, k, i + 1) == |marks|
    {
      Neighbours(marks, Last(marks, k), |marks|);
    }
  }

  // ---- the code ----

  class EventBroker {
    var cap: nat
    var nextOrder: nat
    var nextSeq: nat
    var critical: seq<Event>
    var coalesced: map<string, Event>
    var telemetry: seq<Event>

    function Value(): Queues
      reads this
    {
      Queues(cap, nextOrder, nextSeq, critical, coalesced, telemetry)
    }

    constructor (capacity: int)
      ensures Value() == NewQueues(capacity)
    {
      cap := if capacity < 1 then 1 else capacity;
      nextOrder, nextSeq, critical, coalesced, telemetry := 0, 0, [], map[], [];
    }

    method Order(e: Event) returns (stamped: Event)
      modifies this`nextOrder
      ensures nextOrder == old(nextOrder) + 1 && stamped == e.(number := nextOrder)
    {
      nextOrder := nextOrder + 1;
      stamped := e.(number := nextOrder);
    }

    method Enqueue(e: Event, class_: EventClass) returns (err: Result)
      modifies this
      ensures (Value(), err) == Enqueued(old(Value()), e, class_)
    {
      var depth := |critical| + |coalesced| + |telemetry|;
      match class_ {
      case Critical =>
        if depth >= cap { return Some(Backpressure); }
        var stamped := Order(e);
        critical := critical + [stamped];
      case Coalescible =>
        var key := e.ev + "|" + e.id;
        if key !in coalesced && depth >= cap { return Some(Backpressure); }
        var stamped := Order(e);
        coalesced := coalesced[key := stamped];
      case Telemetry =>
        if depth >= cap {
          if |telemetry| == 0 { return None; }
          telemetry := telemetry[1..];
        }
        var stamped := Order(e);
        telemetry := telemetry + [stamped];
      case OtherClass => return Some(InvalidEventClass);
      }
      err := None;
    }

    method EnqueueCriticalBatch(es: seq<Event>) returns (err: Result)
      modifies this
      ensures (Value(), err) == EnqueueBatch(old(Value()), es)
    {
      if |es| == 0 { return None; }
      if |critical| + |coalesced| + |telemetry| + |es| > cap { return Some(Backpressure); }
      for i := 0 to |es|
        invariant AppendCritical(Value(), es[i..]) == AppendCritical(old(Value()), es)
      {
        assert es[i..][0] == es[i] && es[i..][1..] == es[i + 1..];
        var stamped := Order(es[i]);
        critical := critical + [stamped];
      }
      assert es[|es|..] == [];
      err := None;
    }

    method Deliver(e: Event) returns (out: Event)
      modifies this`nextSeq
      ensures nextSeq == old(nextSeq) + 1 && out == e.(v := VERSION, number := nextSeq)
    {
      nextSeq := nextSeq + 1;
      out := e.(v := VERSION, number := nextSeq);
    }

    /** The oldest coalesced event is found whatever order the map is visited in. */
    method NextEvent() returns (e: Option<Event>)
      requires Bounded(Value())
      modifies this
      ensures (Value(), e) == Next(old(Value()))
    {
      var chosen: Event;
      if |critical| > 0 {
        chosen := critical[0];
        critical := critical[1..];
        chosen := Deliver(chosen);
        return Some(chosen);
      }
      if |coalesced| > 0 {
        SizeNonEmpty(coalesced);
        KeysNamed(Value());
        var chosenKey;
        chosenKey, chosen := FindOldest(coalesced);
        OldestIs(Value(), chosenKey);
        coalesced := coalesced - {chosenKey};
        chosen := Deliver(chosen);
        return Some(chosen);
      }
      if |telemetry| > 0 {
        chosen := telemetry[0];
        telemetry := telemetry[1..];
        chosen := Deliver(chosen);
        return Some(chosen);
      }
      return None;
    }
  }

  /** The search of Next over the coalesced events. */
  method FindOldest(m: map<string, Event>) returns (chosenKey: string, chosen: Event)
    requires m != map[] && "" !in m
    ensures chosenKey in m && chosen == m[chosenKey]
    ensures forall k :: k in m ==> chosen.number <= m[k].number
  {
    chosenKey, chosen := "", BLANK;
    var todo := m.Keys;
    while todo != {}
      invariant todo <= m.Keys
      invariant chosenKey == "" ==> todo == m.Keys
      invariant chosenKey != "" ==> chosenKey in m && chosen == m[chosenKey]
      invariant chosenKey != "" ==> forall k :: k in m && k !in todo ==> chosen.number <= m[k].number
    {
      var k :| k in todo;
      if chosenKey == "" || m[k].number < chosen.number { chosenKey, chosen := k, m[k]; }
      todo := todo - {k};
    }
  }

  lemma KeysNamed(b: Queues)
    requires Bounded(b)
    ensures "" !in b.coalesced
  {
  }

  lemma SizeNonEmpty(m: map<string, Event>)
    ensures |m| > 0 <==> m != map[]
  {
    if |m| == 0 { assert m.Keys == {}; }
  }
}

/** In which order coalescible events leave the broker, and what becomes of telemetry (runtime/events.go). */
module BrokerLaws {
  import opened Protocol
  import opened Broker

  // ---- the coalescible event that waits longest goes first ----

  /** Later offers have higher stamps, and none is above the counter. */
  ghost predicate Stamps(b: Queues, marks: seq<Mark>) {
    && (forall i :: 0 <= i < |marks| && marks[i].Offered? ==> marks[i].e.number <= b.nextOrder)
    && forall i, j :: 0 <= i < j < |marks| && marks[i].Offered? && marks[j].Offered? ==>
         marks[i].e.number < marks[j].e.number
  }

  /** Of the events waiting then, the one handed out was offered first. */
  ghost predicate OldestAt(marks: seq<Mark>, j: nat)
    requires j < |marks|
  {
    marks[j].Emitted? ==> forall k ::
      var i := Last(marks[..j], k);
      i >= 0 && marks[i].Offered? ==> Last(marks[..j], Key(marks[j])) <= i
  }

  ghost predicate OldestFirst(marks: seq<Mark>) { forall j :: 0 <= j < |marks| ==> OldestAt(marks, j) }

  lemma OldestSnoc(marks: seq<Mark>, m: Mark)
    requires OldestFirst(marks)
    requires m.Emitted? ==> forall k ::
      var i := Last(marks, k);
      i >= 0 && marks[i].Offered? ==> Last(marks, Key(m)) <= i
    ensures OldestFirst(marks + [m])
  {
    var all := marks + [m];
    forall j | 0 <= j < |all| ensures OldestAt(all, j) {
      if j < |marks| {
        assert all[..j] == marks[..j] && all[j] == marks[j] && OldestAt(marks, j);
      } else {
        assert all[..j] == marks && all[j] == m;
      }
    }
    hide Last;
  }

  lemma OldestOffered(b: Queues, h: History, at: nat)
    requires Coalesces(b, h) && Stamps(b, h.marks) && b.coalesced != map[]
    ensures var m := Emitted(b.coalesced[Oldest(b.coalesced)], at);
      forall k ::
        var i := Last(h.marks, k);
        i >= 0 && h.marks[i].Offered? ==> Last(h.marks, Key(m)) <= i
  {
    var o := Oldest(b.coalesced);
    var m := Emitted(b.coalesced[o], at);
    CoalescesTracks(b, h);
    TrackedAt(b.coalesced, h.marks, o);
    EmittedKey(b.coalesced[o], at);
    forall k ensures var i := Last(h.marks, k); i >= 0 && h.marks[i].Offered? ==> Last(h.marks, Key(m)) <= i {
      TrackedAt(b.coalesced, h.marks, k);
    }
    hide Last;
    hide Tracks;
    hide Coalesces;
  }

  lemma CoalescesTracks(b: Queues, h: History)
    requires Coalesces(b, h)
    ensures Tracks(b.coalesced, h.marks)
  {
    hide Tracks;
  }

  /** Which mark a step makes. */
  lemma StepMark(b: Queues, h: History, c: Call)
    ensures var (b', h') := Step(b, h, c);
      && b'.nextOrder >= b.nextOrder
      && (|| h'.marks == h.marks
          || (c.Put? && h'.marks == h.marks + [Offered(Stamped(b, c.e))] && b'.nextOrder == b.nextOrder + 1)
          || (c.Take? && b.coalesced != map[]
              && h'.marks == h.marks + [Emitted(b.coalesced[Oldest(b.coalesced)], |h.delivered|)]))
  {
    if c.PutAll? { AppendCriticalIs(b, c.es); }
    hide Oldest;
    hide Payloads;
  }

  lemma StampsSnoc(b: Queues, b': Queues, marks: seq<Mark>, m: Mark)
    requires Stamps(b, marks) && b'.nextOrder >= b.nextOrder
    requires m.Offered? ==> b.nextOrder < m.e.number <= b'.nextOrder
    ensures Stamps(b', marks + [m])
  {
  }

  lemma StepOldest(b: Queues, h: History, c: Call)
    requires Coalesces(b, h) && Stamps(b, h.marks) && OldestFirst(h.marks)
    ensures var (b', h') := Step(b, h, c); Stamps(b', h'.marks) && OldestFirst(h'.marks)
  {
    StepMark(b, h, c);
    hide *;
    var (b', h') := Step(b, h, c);
    if h'.marks == h.marks {
      StampsStay(b, b', h.marks);
    } else if c.Put? && h'.marks == h.marks + [Offered(Stamped(b, c.e))] {
      StampedIs(b, c.e);
      StampsSnoc(b, b', h.marks, Offered(Stamped(b, c.e)));
      OldestSnoc(h.marks, Offered(Stamped(b, c.e)));
    } else {
      var m := Emitted(b.coalesced[Oldest(b.coalesced)], |h.delivered|);
      OldestOffered(b, h, |h.delivered|);
      StampsSnoc(b, b', h.marks, m);
      OldestSnoc(h.marks, m);
    }
  }

  lemma StampsStay(b: Queues, b': Queues, marks: seq<Mark>)
    requires Stamps(b, marks) && b'.nextOrder >= b.nextOrder
    ensures Stamps(b', marks)
  {
  }

  lemma StampedIs(b: Queues, e: Event)
    ensures Stamped(b, e).number == b.nextOrder + 1
  {
  }

  lemma {:induction false} RunOldest(b: Queues, h: History, calls: seq<Call>)
    requires Faithful(b, h) && Coalesces(b, h) && Stamps(b, h.marks) && OldestFirst(h.marks)
    ensures OldestFirst(RunFrom(b, h, calls).1.marks)
    decreases |calls|
  {
    if calls != [] {
      StepFaithful(b, h, calls[0]);
      StepCoalesces(b, h, calls[0]);
      StepOldest(b, h, calls[0]);
      RunOldest(Step(b, h, calls[0]).0, Step(b, h, calls[0]).1, calls[1..]);
    }
  }

  /** Over every run a coalescible event is only handed out when none that waits was offered before it. */
  lemma OldestGoesFirst(capacity: int, calls: seq<Call>)
    ensures OldestFirst(RunFrom(NewQueues(capacity), NO_HISTORY, calls).1.marks)
  {
    NewCoalesces(capacity);
    NewFaithful(capacity);
    RunOldest(NewQueues(capacity), NO_HISTORY, calls);
  }

  /**
   A critical event is refused exactly when the broker is full, a coalescible one when it is full and
   nothing waits under its key, telemetry never; and what is refused changes nothing.
   */
  lemma RefusedExactly(b: Queues, e: Event, class_: EventClass)
    requires Bounded(b)
    ensures var (after, err) := Enqueued(b, e, class_);
      && (err.Some? ==> after == b)
      && (match class_
          case Critical => err.Some? <==> Depth(b) == b.cap
          case Coalescible => err.Some? <==> Depth(b) == b.cap && CoalescingKey(e) !in b.coalesced
          case Telemetry => err.None?
          case OtherClass => err.Some?)
  {
  }

  // ---- telemetry ----

  /** A telemetry event, by its place among those taken in, and the delivery that carried it. */
  datatype Heard = Heard(index: nat, at: nat)

  /** All telemetry taken in, what of it was delivered, and how many were dropped. */
  datatype Samples = Samples(all: seq<Event>, heard: seq<Heard>, dropped: nat)

  const NO_SAMPLES := Samples([], [], 0)

  /** Telemetry is dropped only by telemetry, and only when the broker is full. */
  function Sampled(b: Queues, s: Samples, c: Call): Samples {
    match c
    case Put(e, Telemetry) =>
      if Depth(b) < b.cap then s.(all := s.all + [Payload(e)])
      else if b.telemetry == [] then s
      else s.(all := s.all + [Payload(e)], dropped := s.dropped + 1)
    case Take =>
      if b.critical == [] && b.coalesced == map[] && b.telemetry != []
      then s.(heard := s.heard + [Heard(|s.heard| + s.dropped, b.nextSeq)]) else s
    case _ => s
  }

  ghost function RunSampled(b: Queues, s: Samples, calls: seq<Call>): Samples
    decreases |calls|
  {
    if calls == [] then s else RunSampled(Step(b, NO_HISTORY, calls[0]).0, Sampled(b, s, calls[0]), calls[1..])
  }

  /** What is queued is what came last, and what was delivered came in the same order before it. */
  ghost predicate InTurn(b: Queues, h: History, s: Samples) {
    var gone := |s.heard| + s.dropped;
    && gone <= |s.all| && Payloads(b.telemetry) == s.all[gone..]
    && (forall i :: 0 <= i < |s.heard| ==> HeardRight(h, s, s.heard[i]) && s.heard[i].index < gone)
    && forall i, j :: 0 <= i < j < |s.heard| ==>
         s.heard[i].index < s.heard[j].index && s.heard[i].at < s.heard[j].at
  }

  predicate HeardRight(h: History, s: Samples, x: Heard) {
    x.index < |s.all| && x.at < |h.delivered| && Payload(h.delivered[x.at]) == s.all[x.index]
  }

  /** How a step changes queue and deliveries, as far as telemetry goes. */
  lemma StepTelemetry(b: Queues, h: History, c: Call)
    ensures var (b', h') := Step(b, h, c);
      && b'.telemetry == (match c
           case Put(e, Telemetry) =>
             if Depth(b) < b.cap then b.telemetry + [Stamped(b, e)]
             else if b.telemetry == [] then [] else b.telemetry[1..] + [Stamped(b, e)]
           case Take =>
             if b.critical == [] && b.coalesced == map[] && b.telemetry != [] then b.telemetry[1..] else b.telemetry
           case _ => b.telemetry)
      && |h.delivered| <= |h'.delivered| && h'.delivered[..|h.delivered|] == h.delivered
      && (c.Take? && b.critical == [] && b.coalesced == map[] && b.telemetry != [] ==>
            h'.delivered == h.delivered + [Delivered(b, b.telemetry[0])])
      && b' == Step(b, NO_HISTORY, c).0
  {
    if c.PutAll? { AppendCriticalIs(b, c.es); }
    hide Oldest;
    hide Payloads;
  }

  lemma HeardStill(h: History, h': History, s: Samples, s': Samples, x: Heard)
    requires HeardRight(h, s, x) && |h.delivered| <= |h'.delivered| && h'.delivered[..|h.delivered|] == h.delivered
    requires |s.all| <= |s'.all| && s'.all[..|s.all|] == s.all
    ensures HeardRight(h', s', x)
  {
    assert h'.delivered[x.at] == h'.delivered[..|h.delivered|][x.at] && s'.all[x.index] == s'.all[..|s.all|][x.index];
  }

  lemma StaysInTurn(b: Queues, h: History, s: Samples, b': Queues, h': History)
    requires InTurn(b, h, s) && b'.telemetry == b.telemetry
    requires |h.delivered| <= |h'.delivered| && h'.delivered[..|h.delivered|] == h.delivered
    ensures InTurn(b', h', s)
  {
    assert s.all[..|s.all|] == s.all;
    forall i | 0 <= i < |s.heard| ensures HeardRight(h', s, s.heard[i]) { HeardStill(h, h', s, s, s.heard[i]); }
    hide HeardRight;
  }

  /** One more event at the end, and perhaps one dropped at the front. */
  lemma TakesIn(b: Queues, h: History, s: Samples, b': Queues, e: Event, dropping: bool)
    requires InTurn(b, h, s) && (dropping ==> b.telemetry != [])
    requires b'.telemetry == (if dropping then b.telemetry[1..] else b.telemetry) + [e]
    ensures InTurn(b', h, s.(all := s.all + [Payload(e)], dropped := s.dropped + if dropping then 1 else 0))
  {
    var s' := s.(all := s.all + [Payload(e)], dropped := s.dropped + if dropping then 1 else 0);
    var gone := |s.heard| + s.dropped;
    assert h.delivered[..|h.delivered|] == h.delivered && s'.all[..|s.all|] == s.all;
    forall i | 0 <= i < |s.heard| ensures HeardRight(h, s', s.heard[i]) { HeardStill(h, h, s, s', s.heard[i]); }
    PayloadsSnoc(if dropping then b.telemetry[1..] else b.telemetry, e);
    if dropping { PayloadsCons(b.telemetry); }
    hide HeardRight;
    hide Payloads;
    assert dropping ==> s.all[gone..][1..] == s.all[gone + 1..];
    assert s'.all[|s'.heard| + s'.dropped..] == s.all[|s'.heard| + s'.dropped..] + [Payload(e)];
  }

  lemma Hears(b: Queues, h: History, s: Samples, b': Queues, h': History)
    requires InTurn(b, h, s) && b.telemetry != [] && |h.delivered| == b.nextSeq
    requires b'.telemetry == b.telemetry[1..] && h'.delivered == h.delivered + [Delivered(b, b.telemetry[0])]
    ensures InTurn(b', h', s.(heard := s.heard + [Heard(|s.heard| + s.dropped, b.nextSeq)]))
  {
    var gone := |s.heard| + s.dropped;
    var s' := s.(heard := s.heard + [Heard(gone, b.nextSeq)]);
    assert h'.delivered[..|h.delivered|] == h.delivered && s.all[..|s.all|] == s.all;
    forall i | 0 <= i < |s.heard| ensures HeardRight(h', s', s.heard[i]) { HeardStill(h, h', s, s', s.heard[i]); }
    forall i | 0 <= i < |s.heard| ensures s.heard[i].at < b.nextSeq { assert HeardRight(h, s, s.heard[i]); }
    PayloadsCons(b.telemetry);
    assert s.all[gone..][0] == s.all[gone] && s.all[gone..][1..] == s.all[gone + 1..];
    assert Payload(Delivered(b, b.telemetry[0])) == Payload(b.telemetry[0]);
    assert HeardRight(h', s', s'.heard[|s.heard|]);
    hide HeardRight;
    hide Payloads;
  }

  lemma StepInTurn(b: Queues, h: History, s: Samples, c: Call)
    requires Faithful(b, h) && InTurn(b, h, s)
    ensures InTurn(Step(b, h, c).0, Step(b, h, c).1, Sampled(b, s, c))
  {
    StepTelemetry(b, h, c);
    DeliveredCount(b, h);
    PutSampled(b, s, c);
    hide *;
    var (b', h') := Step(b, h, c);
    match c {
      case Put(e, Telemetry) =>
        if Depth(b) < b.cap {
          StaysInTurn(b, h, s, b, h');
          TakesIn(b, h', s, b', Stamped(b, e), false);
        } else if b.telemetry == [] {
          StaysInTurn(b, h, s, b', h');
        } else {
          StaysInTurn(b, h, s, b, h');
          TakesIn(b, h', s, b', Stamped(b, e), true);
        }
      case Take =>
        if b.critical == [] && b.coalesced == map[] && b.telemetry != [] {
          Hears(b, h, s, b', h');
        } else {
          StaysInTurn(b, h, s, b', h');
        }
      case _ => StaysInTurn(b, h, s, b', h');
    }
  }

  lemma PutSampled(b: Queues, s: Samples, c: Call)
    ensures Sampled(b, s, c) == match c
      case Put(e, Telemetry) =>
        if Depth(b) < b.cap then s.(all := s.all + [Payload(Stamped(b, e))])
        else if b.telemetry == [] then s
        else s.(all := s.all + [Payload(Stamped(b, e))], dropped := s.dropped + 1)
      case Take =>
        if b.critical == [] && b.coalesced == map[] && b.telemetry != []
        then s.(heard := s.heard + [Heard(|s.heard| + s.dropped, b.nextSeq)]) else s
      case _ => s
  {
    if c.Put? { assert Payload(Stamped(b, c.e)) == Payload(c.e); }
  }

  lemma DeliveredCount(b: Queues, h: History)
    requires Faithful(b, h)
    ensures |h.delivered| == b.nextSeq
  {
    hide Bounded;
  }

  lemma {:induction false} RunInTurn(b: Queues, h: History, s: Samples, calls: seq<Call>)
    requires Faithful(b, h) && InTurn(b, h, s)
    ensures InTurn(RunFrom(b, h, calls).0, RunFrom(b, h, calls).1, RunSampled(b, s, calls))
    decreases |calls|
  {
    if calls != [] {
      StepFaithful(b, h, calls[0]);
      StepInTurn(b, h, s, calls[0]);
      StepTelemetry(b, h, calls[0]);
      hide Step;
      RunInTurn(Step(b, h, calls[0]).0, Step(b, h, calls[0]).1, Sampled(b, s, calls[0]), calls[1..]);
    }
  }

  /**
   Over every run telemetry is delivered in the order it came in, each at most once, and what is neither
   delivered nor queued was dropped to make room for newer telemetry in a full broker, oldest first.
   */
  lemma TelemetryInTurn(capacity: int, calls: seq<Call>)
    ensures var (b, h) := RunFrom(NewQueues(capacity), NO_HISTORY, calls);
      InTurn(b, h, RunSampled(NewQueues(capacity), NO_SAMPLES, calls))
  {
    NewFaithful(capacity);
    assert InTurn(NewQueues(capacity), NO_HISTORY, NO_SAMPLES);
    RunInTurn(NewQueues(capacity), NO_HISTORY, NO_SAMPLES, calls);
  }
}

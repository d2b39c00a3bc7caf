/** The session state machine (session/session.go). */
module Sessions {
  import opened Protocol
  import opened Engines

  datatype Phase = Fresh | Ready | Draining | Closed

  datatype Hello = Hello(versions: seq<int>, features: seq<string>)
  datatype HelloAck = HelloAck(
    version: int, features: seq<string>, components: seq<NodeType>, limits: Limits)

  datatype SessionState = SessionState(
    id: string, phase: Phase, limits: Limits, version: int, expected: nat, features: seq<string>)

  datatype Negotiated = Refused(code: Code) | Agreed(ack: HelloAck)
  datatype Admission = Barred(code: Code) | Duplicate | Next

  function NewSession(id: string, configured: Limits): SessionState {
    SessionState(id, Fresh, EffectiveLimits(configured), 0, 1, [])
  }

  // ---- negotiation ----

  predicate Unique<T(==)>(s: seq<T>) { forall i, j :: 0 <= i < j < |s| ==> s[i] != s[j] }

  function ValidateHello(h: Hello): Result {
    if |h.versions| == 0 then Some(MissingField)
    else if (exists v :: v in h.versions && v < 1) || !Unique(h.versions) then Some(InvalidHello)
    else if "" in h.features || !Unique(h.features) then Some(InvalidHello)
    else None
  }

  const AVAILABLE := {"commit-barrier", "incremental-props", "action-events", "bounded-resources", "udp-telemetry"}

  /** The features both sides know, in the order they were asked for. */
  function Shared(features: seq<string>): (r: seq<string>)
    ensures forall f :: f in r <==> f in features && f in AVAILABLE
  {
    if features == [] then []
    else (if features[0] in AVAILABLE then [features[0]] else []) + Shared(features[1..])
  }

  const ALL_TYPES := [Box, Text, Viewport, Table, Input, Actions, Progress]

  // ---- sorted features ----

  /** Byte-wise lexicographic order. */
  predicate AtMost(a: string, b: string) {
    a == "" || (b != "" && (a[0] < b[0] || (a[0] == b[0] && AtMost(a[1..], b[1..]))))
  }

  function Insert(s: seq<string>, x: string): seq<string> {
    if s == [] || AtMost(x, s[0]) then [x] + s else [s[0]] + Insert(s[1..], x)
  }

  function Sort(s: seq<string>): seq<string> {
    if s == [] then [] else Insert(Sort(s[1..]), s[0])
  }

  predicate Ascending(s: seq<string>) { forall i, j :: 0 <= i < j < |s| ==> AtMost(s[i], s[j]) }

  lemma {:induction false} AtMostTotal(a: string, b: string)
    ensures AtMost(a, b) || AtMost(b, a)
    decreases |a|
  {
    if a != "" && b != "" && a[0] == b[0] { AtMostTotal(a[1..], b[1..]); }
  }

  lemma {:induction false} AtMostChain(a: string, b: string, c: string)
    requires AtMost(a, b) && AtMost(b, c)
    ensures AtMost(a, c)
    decreases |a|
  {
    if a != "" && a[0] == b[0] == c[0] { AtMostChain(a[1..], b[1..], c[1..]); }
  }

  lemma UniqueCons(x: string, s: seq<string>)
    ensures Unique([x] + s) <==> Unique(s) && x !in s
  {
    var all := [x] + s;
    if Unique(all) {
      forall i, j | 0 <= i < j < |s| ensures s[i] != s[j] { assert all[i + 1] != all[j + 1]; }
      forall i | 0 <= i < |s| ensures s[i] != x { assert all[0] != all[i + 1]; }
    }
  }

  lemma {:induction false} InsertKeeps(s: seq<string>, x: string)
    requires Ascending(s)
    ensures var r := Insert(s, x);
      && Ascending(r) && |r| == |s| + 1 && (forall y :: y in r <==> y == x || y in s)
      && (Unique(s) && x !in s ==> Unique(r))
    decreases |s|
  {
    if s == [] {
    } else if AtMost(x, s[0]) {
      forall j | 0 <= j < |s| ensures AtMost(x, s[j]) {
        if j > 0 { AtMostChain(x, s[0], s[j]); }
      }
    } else {
      AtMostTotal(x, s[0]);
      assert s == [s[0]] + s[1..];
      InsertKeeps(s[1..], x);
      var rest := Insert(s[1..], x);
      assert forall y :: y in rest ==> AtMost(s[0], y);
      hide AtMost;
      UniqueCons(s[0], s[1..]);
      UniqueCons(s[0], rest);
    }
  }

  lemma {:induction false} SortKeeps(s: seq<string>)
    ensures var r := Sort(s);
      && Ascending(r) && |r| == |s| && (forall y :: y in r <==> y in s) && (Unique(s) ==> Unique(r))
    decreases |s|
  {
    if s != [] {
      assert s == [s[0]] + s[1..];
      SortKeeps(s[1..]);
      InsertKeeps(Sort(s[1..]), s[0]);
      hide AtMost;
      hide Insert;
    }
  }

  lemma {:induction false} SharedUnique(features: seq<string>)
    requires Unique(features)
    ensures Unique(Shared(features))
    decreases |features|
  {
    if features != [] {
      assert features == [features[0]] + features[1..];
      SharedUnique(features[1..]);
      var rest := Shared(features[1..]);
      UniqueCons(features[0], features[1..]);
      UniqueCons(features[0], rest);
      hide Unique;
      assert [] + rest == rest;
    }
  }

  /** The agreed features are those both sides know, each once, in ascending order. */
  lemma AgreedFeatures(s: SessionState, h: Hello)
    requires Negotiation(s, h).1.Agreed?
    ensures var agreed := Negotiation(s, h).1.ack.features;
      && Ascending(agreed) && Unique(agreed) && Negotiation(s, h).0.features == agreed
      && forall f :: f in agreed <==> f in h.features && f in AVAILABLE
  {
    SortKeeps(Shared(h.features));
    SharedUnique(h.features);
    hide AtMost;
    hide Sort;
  }

  lemma SharedStep(chosen: seq<string>, features: seq<string>, i: nat)
    requires i < |features|
    ensures chosen + Shared(features[i..]) ==
      (if features[i] in AVAILABLE then chosen + [features[i]] else chosen) + Shared(features[i + 1..])
  {
    assert features[i..][1..] == features[i + 1..];
    var rest := Shared(features[i + 1..]);
    if features[i] in AVAILABLE {
      assert Shared(features[i..]) == [features[i]] + rest;
      assert chosen + ([features[i]] + rest) == (chosen + [features[i]]) + rest;
    } else {
      assert Shared(features[i..]) == [] + rest;
    }
  }

  function Negotiation(s: SessionState, h: Hello): (SessionState, Negotiated) {
    if s.phase != Fresh then (s, Refused(InvalidState))
    else if ValidateHello(h).Some? then (s, Refused(ValidateHello(h).value))
    else if VERSION !in h.versions then (s, Refused(VersionMismatch))
    else
      var features := Sort(Shared(h.features));
      (s.(version := VERSION, features := features, phase := Ready),
       Agreed(HelloAck(VERSION, features, ALL_TYPES, s.limits)))
  }

  /** Versions are positive and given once each, the supported one among them; features are named, once each. */
  predicate GoodHello(h: Hello) {
    && VERSION in h.versions && (forall v :: v in h.versions ==> v >= 1) && Unique(h.versions)
    && "" !in h.features && Unique(h.features)
  }

  /** A fresh session accepts exactly the good hellos, and is ready for operation 1; any other changes nothing. */
  lemma HelloAccepted(s: SessionState, h: Hello)
    ensures var (after, r) := Negotiation(s, h);
      && (r.Agreed? <==> s.phase == Fresh && GoodHello(h))
      && (r.Agreed? ==>
            && after == s.(phase := Ready, version := VERSION, features := r.ack.features)
            && r.ack.version == VERSION && r.ack.components == ALL_TYPES && r.ack.limits == s.limits)
      && (!r.Agreed? ==> after == s)
  {
    hide Unique;
    hide Sort;
    hide Shared;
  }

  // ---- sequence numbers ----

  function Admit(s: SessionState, number: nat): (SessionState, Admission) {
    if s.phase != Ready then (s, Barred(InvalidState))
    else if number == 0 then (s.(phase := Closed), Barred(InvalidSequence))
    else if number < s.expected then (s, Duplicate)
    else if number > s.expected then (s.(phase := Closed), Barred(SequenceGap))
    else (s.(expected := s.expected + 1), Next)
  }

  function Drained(s: SessionState): SessionState {
    if s.phase == Ready then s.(phase := Draining) else s
  }

  // ---- the code ----

  class Session {
    const id: string
    const limits: Limits
    var phase: Phase
    var version: int
    var expected: nat
    var features: seq<string>

    function Value(): SessionState
      reads this
    {
      SessionState(id, phase, limits, version, expected, features)
    }

    constructor (id: string, configured: Limits)
      ensures Value() == NewSession(id, configured)
    {
      this.id, limits := id, EffectiveLimits(configured);
      phase, version, expected, features := Fresh, 0, 1, [];
    }

    /** validate.go checks values and repetitions in one pass with a set of what was seen. */
    static method CheckVersions(versions: seq<int>) returns (ok: bool)
      ensures ok <==> (forall v :: v in versions ==> v >= 1) && Unique(versions)
    {
      var seen: set<int> := {};
      for i := 0 to |versions|
        invariant seen == set v | v in versions[..i]
        invariant (forall v :: v in versions[..i] ==> v >= 1) && Unique(versions[..i])
      {
        assert versions[i] in versions;
        if versions[i] < 1 { return false; }
        if versions[i] in seen {
          var j :| 0 <= j < i && versions[j] == versions[i];
          return false;
        }
        assert versions[..i + 1] == versions[..i] + [versions[i]];
        seen := seen + {versions[i]};
      }
      assert versions[..|versions|] == versions;
      ok := true;
    }

    static method CheckFeatures(features: seq<string>) returns (ok: bool)
      ensures ok <==> "" !in features && Unique(features)
    {
      var seen: set<string> := {};
      for i := 0 to |features|
        invariant seen == set f | f in features[..i]
        invariant "" !in features[..i] && Unique(features[..i])
      {
        if features[i] == "" { return false; }
        if features[i] in seen {
          var j :| 0 <= j < i && features[j] == features[i];
          return false;
        }
        assert features[..i + 1] == features[..i] + [features[i]];
        seen := seen + {features[i]};
      }
      assert features[..|features|] == features;
      ok := true;
    }

    static method Supported(versions: seq<int>) returns (found: bool)
      ensures found <==> VERSION in versions
    {
      found := false;
      for i := 0 to |versions|
        invariant !found && VERSION !in versions[..i]
      {
        if versions[i] == VERSION { return true; }
      }
    }

    static method Choose(features: seq<string>) returns (chosen: seq<string>)
      ensures chosen == Shared(features)
    {
      chosen := [];
      for i := 0 to |features|
        invariant chosen + Shared(features[i..]) == Shared(features)
      {
        SharedStep(chosen, features, i);
        hide Shared;
        if features[i] in AVAILABLE { chosen := chosen + [features[i]]; }
      }
    }

    method Negotiate(h: Hello) returns (r: Negotiated)
      modifies this
      ensures (Value(), r) == Negotiation(old(Value()), h)
    {
      if phase != Fresh { return Refused(InvalidState); }
      if |h.versions| == 0 { return Refused(MissingField); }
      var versionsOk := CheckVersions(h.versions);
      if !versionsOk { return Refused(InvalidHello); }
      var featuresOk := CheckFeatures(h.features);
      if !featuresOk { return Refused(InvalidHello); }
      var supported := Supported(h.versions);
      hide Unique;
      hide Shared;
      hide Sort;
      if !supported { return Refused(VersionMismatch); }
      var chosen := Choose(h.features);
      chosen := Sort(chosen);
      version, features, phase := VERSION, chosen, Ready;
      r := Agreed(HelloAck(VERSION, chosen, ALL_TYPES, limits));
    }

    method AcceptMutation(number: nat) returns (r: Admission)
      modifies this`phase, this`expected
      ensures (Value(), r) == Admit(old(Value()), number)
    {
      if phase != Ready { return Barred(InvalidState); }
      if number == 0 {
        phase := Closed;
        return Barred(InvalidSequence);
      }
      if number < expected { return Duplicate; }
      if number > expected {
        phase := Closed;
        return Barred(SequenceGap);
      }
      expected := expected + 1;
      r := Next;
    }

    method Drain()
      modifies this`phase
      ensures Value() == Drained(old(Value()))
    {
      if phase == Ready { phase := Draining; }
    }

    method Close()
      modifies this`phase
      ensures Value() == old(Value()).(phase := Closed)
    {
      phase := Closed;
    }
  }
}

/** The client's end of the snapshot stream (acceptSnapshot in ipc/client.go). */
module Clients {
  import opened Engines

  /** A snapshot older than the cached one is dropped. */
  function Kept(cached: View, incoming: View): View {
    if incoming.renderGeneration < cached.renderGeneration then cached else incoming
  }

  /** The cache after a stream of snapshots. */
  function Cached(first: View, views: seq<View>): (v: View)
    ensures v.renderGeneration >= first.renderGeneration
    decreases |views|
  {
    if views == [] then first else Kept(Cached(first, views[..|views| - 1]), views[|views| - 1])
  }

  /**
   For any stream: the cached generation is the highest received, and the cached snapshot is the last
   one received with that generation.
   */
  lemma {:induction false} CachedIsNewest(first: View, views: seq<View>)
    ensures var v := Cached(first, views);
      && (forall i :: 0 <= i < |views| ==> views[i].renderGeneration <= v.renderGeneration)
      && ((v == first && forall i :: 0 <= i < |views| ==> views[i].renderGeneration < first.renderGeneration)
          || exists k :: IsLastOf(views, v, k))
    decreases |views|
  {
    if views != [] {
      var front, last := views[..|views| - 1], views[|views| - 1];
      CachedIsNewest(first, front);
      var v := Cached(first, front);
      if last.renderGeneration >= v.renderGeneration {
        assert IsLastOf(views, last, |views| - 1);
      } else if k: nat :| IsLastOf(front, v, k) {
        assert IsLastOf(views, v, k);
      }
    }
  }

  /** `v` came as number `k`, and everything after it was older. */
  predicate IsLastOf(views: seq<View>, v: View, k: nat) {
    && k < |views| && views[k] == v
    && forall i :: k < i < |views| ==> views[i].renderGeneration < v.renderGeneration
  }

  /** A stream whose generations never fall is cached without a drop. */
  lemma {:induction false} RisingStreamKept(first: View, views: seq<View>)
    requires forall i :: 0 <= i < |views| ==> first.renderGeneration <= views[i].renderGeneration
    requires forall i, j :: 0 <= i < j < |views| ==> views[i].renderGeneration <= views[j].renderGeneration
    ensures Cached(first, views) == if views == [] then first else views[|views| - 1]
    decreases |views|
  {
    if views != [] { RisingStreamKept(first, views[..|views| - 1]); }
  }

  class Client {
    var snapshot: View

    constructor (first: View)
      ensures snapshot == first
    {
      snapshot := first;
    }

    method AcceptSnapshot(incoming: View) returns (accepted: bool)
      modifies this
      ensures snapshot == Kept(old(snapshot), incoming)
      ensures accepted <==> incoming.renderGeneration >= old(snapshot).renderGeneration
    {
      if incoming.renderGeneration < snapshot.renderGeneration { return false; }
      snapshot := incoming;
      accepted := true;
    }
  }
}

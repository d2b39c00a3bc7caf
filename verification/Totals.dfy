/** Sums of integer sequences, for the allocators. */
module Totals {
  function Total(s: seq<int>): int {
    if s == [] then 0 else Total(s[..|s| - 1]) + s[|s| - 1]
  }

  lemma TotalNext(s: seq<int>, i: nat)
    requires i < |s|
    ensures Total(s[..i + 1]) == Total(s[..i]) + s[i]
  {
    assert s[..i + 1][..i] == s[..i];
  }

  lemma TotalAll(s: seq<int>)
    ensures Total(s[..|s|]) == Total(s) && Total(s[..0]) == 0
  {
    assert s[..|s|] == s;
  }

  lemma {:induction false} TotalUpdate(s: seq<int>, i: nat, v: int)
    requires i < |s|
    ensures Total(s[i := v]) == Total(s) - s[i] + v
    decreases |s|
  {
    var t, last := s[i := v], |s| - 1;
    if i == last {
      assert t[..last] == s[..last];
    } else {
      assert t[..last] == s[..last][i := v];
      TotalUpdate(s[..last], i, v);
    }
  }

  lemma {:induction false} TotalLe(s: seq<int>, t: seq<int>)
    requires |s| == |t| && forall i :: 0 <= i < |s| ==> s[i] <= t[i]
    ensures Total(s) <= Total(t)
    ensures Total(s) == Total(t) ==> s == t
    decreases |s|
  {
    if s != [] {
      var last := |s| - 1;
      TotalLe(s[..last], t[..last]);
      if Total(s) == Total(t) {
        assert s == s[..last] + [s[last]] && t == t[..last] + [t[last]];
      }
    }
  }

  lemma {:induction false} TotalAdd(s: seq<int>, t: seq<int>, u: seq<int>)
    requires |s| == |t| == |u| && forall i :: 0 <= i < |s| ==> u[i] == s[i] + t[i]
    ensures Total(u) == Total(s) + Total(t)
    decreases |s|
  {
    if s != [] { TotalAdd(s[..|s| - 1], t[..|s| - 1], u[..|s| - 1]); }
  }

  lemma {:induction false} TotalScale(s: seq<int>, k: int, u: seq<int>)
    requires |s| == |u| && forall i :: 0 <= i < |s| ==> u[i] == k * s[i]
    ensures Total(u) == k * Total(s)
    decreases |s|
  {
    if s != [] { TotalScale(s[..|s| - 1], k, u[..|s| - 1]); }
  }

  /** A sum of non-negative numbers is at least each of them. */
  lemma {:induction false} TotalNonNegative(s: seq<int>)
    requires forall i :: 0 <= i < |s| ==> s[i] >= 0
    ensures Total(s) >= 0 && forall i :: 0 <= i < |s| ==> s[i] <= Total(s)
    decreases |s|
  {
    if s != [] {
      var last := |s| - 1;
      TotalNonNegative(s[..last]);
      forall i | 0 <= i < |s| ensures s[i] <= Total(s) {
        if i < last { assert s[..last][i] == s[i]; }
      }
    }
  }

  lemma {:induction false} SomePositive(s: seq<int>)
    requires Total(s) > 0
    ensures exists i :: 0 <= i < |s| && s[i] > 0
    decreases |s|
  {
    var last := |s| - 1;
    if s[last] <= 0 {
      SomePositive(s[..last]);
      var i :| 0 <= i < last && s[..last][i] > 0;
      assert s[i] > 0;
    }
  }

  /** The sum as the code computes it. */
  method SumInts(values: seq<int>) returns (total: int)
    ensures total == Total(values)
  {
    total := 0;
    for i := 0 to |values|
      invariant total == Total(values[..i])
    {
      TotalNext(values, i);
      total := total + values[i];
    }
    TotalAll(values);
  }
}

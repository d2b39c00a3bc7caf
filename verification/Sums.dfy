/** Finite sums over a set, independent of the order in which the elements are visited. */
module Sums {

  ghost function Sum<K(!new)>(s: set<K>, w: K -> int): int
    decreases |s|
  {
    if s == {} then 0 else
      var x :| x in s;
      w(x) + Sum(s - {x}, w)
  }

  /** Any element may be taken first: this is what lets a loop visit a map in any order. */
  lemma {:induction false} SumTake<K(!new)>(s: set<K>, w: K -> int, x: K)
    requires x in s
    ensures Sum(s, w) == w(x) + Sum(s - {x}, w)
    decreases |s|
  {
    var y :| y in s && Sum(s, w) == w(y) + Sum(s - {y}, w);
    if y != x {
      SumTake(s - {y}, w, x);
      SumTake(s - {x}, w, y);
      assert s - {y} - {x} == s - {x} - {y};
    }
  }

  lemma {:induction false} SumUnion<K(!new)>(a: set<K>, b: set<K>, w: K -> int)
    requires a !! b
    ensures Sum(a + b, w) == Sum(a, w) + Sum(b, w)
    decreases |a|
  {
    if a == {} {
      assert a + b == b;
    } else {
      var x :| x in a;
      SumTake(a, w, x);
      SumTake(a + b, w, x);
      assert a + b - {x} == (a - {x}) + b;
      SumUnion(a - {x}, b, w);
    }
  }

  /** Pointwise smaller weights give a smaller sum. */
  lemma {:induction false} SumLe<K(!new)>(s: set<K>, v: K -> int, w: K -> int)
    requires forall x :: x in s ==> v(x) <= w(x)
    ensures Sum(s, v) <= Sum(s, w)
    decreases |s|
  {
    if s != {} {
      var x :| x in s;
      SumTake(s, v, x);
      SumTake(s, w, x);
      SumLe(s - {x}, v, w);
    }
  }

  lemma SumEq<K(!new)>(s: set<K>, v: K -> int, w: K -> int)
    requires forall x :: x in s ==> v(x) == w(x)
    ensures Sum(s, v) == Sum(s, w)
  {
    SumLe(s, v, w);
    SumLe(s, w, v);
  }

  /** Fewer elements of non-negative weight give a smaller sum. */
  lemma SumSubset<K(!new)>(a: set<K>, b: set<K>, w: K -> int)
    requires a <= b
    requires forall x :: x in b ==> 0 <= w(x)
    ensures 0 <= Sum(a, w) <= Sum(b, w)
  {
    SumUnion(a, b - a, w);
    assert a + (b - a) == b;
    SumLe(a, x => 0, w);
    SumLe(b - a, x => 0, w);
    SumZero(a);
    SumZero(b - a);
  }

  lemma {:induction false} SumZero<K(!new)>(s: set<K>)
    ensures Sum(s, (x: K) => 0) == 0
    decreases |s|
  {
    if s != {} {
      var x :| x in s;
      SumTake(s, (x: K) => 0, x);
      SumZero(s - {x});
    }
  }
}

/**
 Ordered trees, the shape every document encodes. A forest is kept in first-child /
 next-sibling form, so one structural recursion covers both a node's children and its siblings.
 */
module Forests {

  type Id = string

  datatype Forest = Nil | Cons(id: Id, kids: Forest, rest: Forest)

  /** The labels of the top-level trees, left to right. */
  function Roots(f: Forest): seq<Id> {
    match f
    case Nil => []
    case Cons(x, _, rest) => [x] + Roots(rest)
  }

  function Labels(f: Forest): set<Id> {
    match f
    case Nil => {}
    case Cons(x, kids, rest) => {x} + Labels(kids) + Labels(rest)
  }

  /** No label occurs twice. */
  predicate Distinct(f: Forest) {
    match f
    case Nil => true
    case Cons(x, kids, rest) =>
      && x !in Labels(kids) && x !in Labels(rest) && Labels(kids) !! Labels(rest)
      && Distinct(kids) && Distinct(rest)
  }

  function Preorder(f: Forest): seq<Id> {
    match f
    case Nil => []
    case Cons(x, kids, rest) => [x] + Preorder(kids) + Preorder(rest)
  }

  function Postorder(f: Forest): seq<Id> {
    match f
    case Nil => []
    case Cons(x, kids, rest) => Postorder(kids) + [x] + Postorder(rest)
  }

  /** Number of levels: 0 for the empty forest, 1 for leaves only. */
  function Height(f: Forest): nat {
    match f
    case Nil => 0
    case Cons(_, kids, rest) =>
      var down := 1 + Height(kids);
      if down >= Height(rest) then down else Height(rest)
  }

  /** The number of labels. */
  function Size(f: Forest): nat {
    match f
    case Nil => 0
    case Cons(_, kids, rest) => 1 + Size(kids) + Size(rest)
  }

  /** The level of a label, top-level trees being at level 0. */
  function Level(f: Forest, x: Id): nat
    requires x in Labels(f)
  {
    if f.id == x then 0
    else if x in Labels(f.kids) then 1 + Level(f.kids, x)
    else Level(f.rest, x)
  }

  /** The children of the node labelled `x`, as a forest. */
  function KidsOf(f: Forest, x: Id): Forest
    requires x in Labels(f)
  {
    if f.id == x then f.kids
    else if x in Labels(f.kids) then KidsOf(f.kids, x)
    else KidsOf(f.rest, x)
  }

  /** The labels of the subtree rooted at `x`. */
  function Subtree(f: Forest, x: Id): set<Id>
    requires x in Labels(f)
  {
    {x} + Labels(KidsOf(f, x))
  }

  function Append(f: Forest, g: Forest): Forest {
    match f
    case Nil => g
    case Cons(x, kids, rest) => Cons(x, kids, Append(rest, g))
  }

  /** The forest without the subtree rooted at `x`. */
  function Prune(f: Forest, x: Id): Forest {
    match f
    case Nil => Nil
    case Cons(y, kids, rest) =>
      if y == x then Prune(rest, x) else Cons(y, Prune(kids, x), Prune(rest, x))
  }

  /** A tree inserted before position `i` of the top level. */
  function InsertTree(f: Forest, i: nat, x: Id, kids: Forest): Forest
    requires i <= |Roots(f)|
  {
    if i == 0 then Cons(x, kids, f) else Cons(f.id, f.kids, InsertTree(f.rest, i - 1, x, kids))
  }

  /** The tree `x` with children `kids` put before position `i` among the children of `p`. */
  function Graft(f: Forest, p: Id, i: nat, x: Id, kids: Forest): Forest
    requires p in Labels(f) ==> i <= |Roots(KidsOf(f, p))|
  {
    match f
    case Nil => Nil
    case Cons(y, below, rest) =>
      if y == p then Cons(y, InsertTree(below, i, x, kids), rest)
      else if p in Labels(below) then Cons(y, Graft(below, p, i, x, kids), rest)
      else Cons(y, below, Graft(rest, p, i, x, kids))
  }

  // ---- sequences of child labels ----

  /** A child list without `x`. */
  function Without(s: seq<Id>, x: Id): seq<Id> {
    if s == [] then [] else
      (if s[0] == x then [] else [s[0]]) + Without(s[1..], x)
  }

  function InsertAt(s: seq<Id>, i: nat, x: Id): seq<Id>
    requires i <= |s|
  {
    s[..i] + [x] + s[i..]
  }

  // ---- facts ----

  lemma {:induction false} SizeCounts(f: Forest)
    requires Distinct(f)
    ensures |Labels(f)| == Size(f)
    decreases f
  {
    if f.Cons? {
      SizeCounts(f.kids);
      SizeCounts(f.rest);
      assert Labels(f) == {f.id} + (Labels(f.kids) + Labels(f.rest));
      assert |Labels(f.kids) + Labels(f.rest)| == |Labels(f.kids)| + |Labels(f.rest)|;
    }
  }

  lemma RootsAreLabels(f: Forest)
    ensures forall x :: x in Roots(f) ==> x in Labels(f)
  {
  }

  lemma RootsDistinct(f: Forest)
    requires Distinct(f)
    ensures NoRepeats(Roots(f))
  {
    if f.Cons? {
      RootsAreLabels(f.rest);
    }
  }

  predicate NoRepeats(s: seq<Id>) {
    forall i, j :: 0 <= i < j < |s| ==> s[i] != s[j]
  }

  lemma TailUnique(s: seq<Id>)
    requires NoRepeats(s) && s != []
    ensures NoRepeats(s[1..]) && s[0] !in s[1..]
  {
    assert forall k :: 0 <= k < |s[1..]| ==> s[1..][k] == s[k + 1];
  }

  lemma NoRepeatsConcat(s: seq<Id>, t: seq<Id>)
    requires NoRepeats(s) && NoRepeats(t) && forall x :: x in s ==> x !in t
    ensures NoRepeats(s + t)
  {
    var u := s + t;
    forall i, j | 0 <= i < j < |u| ensures u[i] != u[j] {
      if i < |s| && |s| <= j {
        assert u[i] in s && u[j] == t[j - |s|];
      }
    }
  }

  /** Both traversals list exactly the labels, each once. */
  lemma OrdersListLabels(f: Forest)
    ensures forall x :: x in Preorder(f) <==> x in Labels(f)
    ensures forall x :: x in Postorder(f) <==> x in Labels(f)
    ensures Distinct(f) ==> NoRepeats(Preorder(f)) && NoRepeats(Postorder(f))
  {
    if f.Cons? && Distinct(f) {
      NoRepeatsConcat([f.id], Preorder(f.kids));
      NoRepeatsConcat([f.id] + Preorder(f.kids), Preorder(f.rest));
      NoRepeatsConcat(Postorder(f.kids), [f.id]);
      NoRepeatsConcat(Postorder(f.kids) + [f.id], Postorder(f.rest));
    }
  }

  lemma KidsAreLabels(f: Forest, x: Id)
    requires x in Labels(f)
    ensures Labels(KidsOf(f, x)) <= Labels(f)
    ensures Distinct(f) ==> Distinct(KidsOf(f, x)) && x !in Labels(KidsOf(f, x))
  {
  }

  lemma AppendFacts(f: Forest, g: Forest)
    ensures Roots(Append(f, g)) == Roots(f) + Roots(g)
    ensures Labels(Append(f, g)) == Labels(f) + Labels(g)
    ensures Distinct(Append(f, g)) <==> Distinct(f) && Distinct(g) && Labels(f) !! Labels(g)
    ensures Height(Append(f, g)) == if Height(f) >= Height(g) then Height(f) else Height(g)
  {
  }

  // ---- pruning and grafting ----

  lemma WithoutFacts(s: seq<Id>, x: Id)
    ensures x !in Without(s, x)
    ensures forall y :: y in Without(s, x) <==> y in s && y != x
    ensures x !in s ==> Without(s, x) == s
    ensures |Without(s, x)| <= |s|
  {
    if s != [] {
      WithoutFacts(s[1..], x);
      assert s == [s[0]] + s[1..];
    }
  }

  lemma WithoutCons(s: seq<Id>, x: Id)
    requires s != []
    ensures s[0] == x ==> Without(s, x) == Without(s[1..], x)
    ensures s[0] != x ==> Without(s, x) == [s[0]] + Without(s[1..], x)
  {
    assert [] + Without(s[1..], x) == Without(s[1..], x);
  }

  lemma PruneAbsent(f: Forest, x: Id)
    requires x !in Labels(f)
    ensures Prune(f, x) == f
  {
  }

  lemma PruneFacts(f: Forest, x: Id)
    ensures Roots(Prune(f, x)) == Without(Roots(f), x)
    ensures Labels(Prune(f, x)) <= Labels(f) - {x}
    ensures Height(Prune(f, x)) <= Height(f)
    ensures Distinct(f) ==> Distinct(Prune(f, x))
  {
    if f.Cons? {
      assert Roots(f)[1..] == Roots(f.rest);
    }
  }

  /** Pruning removes exactly the subtree. */
  lemma {:induction false} PruneLabels(f: Forest, x: Id)
    requires Distinct(f) && x in Labels(f)
    ensures Labels(Prune(f, x)) == Labels(f) - Subtree(f, x)
    decreases f
  {
    if f.id == x {
      PruneAbsent(f.rest, x);
    } else if x in Labels(f.kids) {
      PruneLabels(f.kids, x);
      KidsAreLabels(f.kids, x);
      PruneAbsent(f.rest, x);
    } else {
      PruneLabels(f.rest, x);
      KidsAreLabels(f.rest, x);
      PruneAbsent(f.kids, x);
    }
  }

  lemma KidsOfPrune(f: Forest, x: Id, p: Id)
    requires Distinct(f) && p in Labels(Prune(f, x))
    ensures p in Labels(f) && KidsOf(Prune(f, x), p) == Prune(KidsOf(f, p), x)
  {
    if f.id == x {
    } else {
      PruneFacts(f.kids, x);
      PruneFacts(f.rest, x);
    }
  }

  lemma {:induction false} InsertTreeFacts(f: Forest, i: nat, x: Id, kids: Forest)
    requires i <= |Roots(f)|
    ensures Roots(InsertTree(f, i, x, kids)) == InsertAt(Roots(f), i, x)
    ensures Labels(InsertTree(f, i, x, kids)) == Labels(f) + {x} + Labels(kids)
    ensures Distinct(f) && Distinct(kids) && x !in Labels(f) && x !in Labels(kids) && Labels(f) !! Labels(kids)
      ==> Distinct(InsertTree(f, i, x, kids))
    decreases i
  {
    if i == 0 {
      assert InsertAt(Roots(f), 0, x) == [x] + Roots(f);
    } else {
      InsertTreeFacts(f.rest, i - 1, x, kids);
      assert InsertAt([f.id] + Roots(f.rest), i, x) == [f.id] + InsertAt(Roots(f.rest), i - 1, x);
    }
  }

  lemma {:induction false} GraftFacts(f: Forest, p: Id, i: nat, x: Id, kids: Forest)
    requires Distinct(f) && p in Labels(f) && i <= |Roots(KidsOf(f, p))|
    requires Distinct(kids) && x !in Labels(f) && x !in Labels(kids) && Labels(f) !! Labels(kids)
    ensures var g := Graft(f, p, i, x, kids);
      && Roots(g) == Roots(f)
      && Labels(g) == Labels(f) + {x} + Labels(kids)
      && Distinct(g)
    decreases f
  {
    if f.id == p {
      InsertTreeFacts(f.kids, i, x, kids);
    } else if p in Labels(f.kids) {
      GraftFacts(f.kids, p, i, x, kids);
    } else {
      GraftFacts(f.rest, p, i, x, kids);
    }
  }

  // ---- positions ----

  function IndexIn(s: seq<Id>, x: Id): (i: nat)
    requires x in s
    ensures i < |s| && s[i] == x
  {
    if s[0] == x then 0 else 1 + IndexIn(s[1..], x)
  }
}

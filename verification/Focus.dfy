/** Which nodes can hold the focus, and in which order (runtime/state.go). */
module Focus {
  import opened Sequences
  import opened Forests
  import opened Protocol
  import opened Documents
  import opened Reducer

  predicate Focusable(n: Node) {
    || n.kind.Input?
    || (n.kind.Table? && BoolOf(PropJson(n.props, "selectable")))
    || (n.kind.Viewport? && BoolOf(PropJson(n.props, "scrollable")))
  }

  predicate Stop(nodes: Nodes, x: Id) {
    x != ROOT && x in nodes && Focusable(nodes[x])
  }

  /** The focusable labels of a forest in preorder. */
  function Stops(nodes: Nodes, f: Forest): seq<Id> {
    match f
    case Nil => []
    case Cons(x, kids, rest) => (if Stop(nodes, x) then [x] else []) + Stops(nodes, kids) + Stops(nodes, rest)
  }

  /** The traversal order of a document. */
  ghost function FocusOrder(nodes: Nodes): seq<Id>
    requires IsTree(nodes)
  {
    Stops(nodes, Shape(nodes))
  }

  function HeadOr(s: seq<Id>): Id { if s == [] then "" else s[0] }

  ghost function FirstStop(nodes: Nodes): Id
    requires IsTree(nodes)
  {
    HeadOr(FocusOrder(nodes))
  }

  /** The order lists exactly the focusable nodes, each once. */
  lemma StopsAre(nodes: Nodes, f: Forest)
    ensures forall x :: x in Stops(nodes, f) <==> x in Labels(f) && Stop(nodes, x)
    ensures Distinct(f) ==> NoRepeats(Stops(nodes, f))
  {
    if f.Cons? && Distinct(f) {
      var own := if Stop(nodes, f.id) then [f.id] else [];
      NoRepeatsConcat(own, Stops(nodes, f.kids));
      NoRepeatsConcat(own + Stops(nodes, f.kids), Stops(nodes, f.rest));
    }
  }

  lemma FocusOrderIs(nodes: Nodes)
    requires IsTree(nodes)
    ensures NoRepeats(FocusOrder(nodes))
    ensures forall x :: x in FocusOrder(nodes) <==> x in nodes && Focusable(nodes[x])
  {
    StopsAre(nodes, Shape(nodes));
  }

  // ---- the order is the order of the tree ----

  /** `x` stands somewhere before `y`. */
  ghost predicate Before(s: seq<Id>, x: Id, y: Id) { exists i, j :: 0 <= i < j < |s| && s[i] == x && s[j] == y }

  lemma BeforeApart(s: seq<Id>, t: seq<Id>, x: Id, y: Id)
    requires x in s && y in t
    ensures Before(s + t, x, y)
  {
    var i :| 0 <= i < |s| && s[i] == x;
    var j :| 0 <= j < |t| && t[j] == y;
    assert (s + t)[i] == x && (s + t)[|s| + j] == y;
  }

  lemma BeforeWithin(r: seq<Id>, s: seq<Id>, t: seq<Id>, x: Id, y: Id)
    requires Before(s, x, y)
    ensures Before(r + s + t, x, y)
  {
    var i, j :| 0 <= i < j < |s| && s[i] == x && s[j] == y;
    var all := r + s + t;
    assert all[|r| + i] == x && all[|r| + j] == y;
  }

  lemma StopsCons(nodes: Nodes, f: Forest)
    requires f.Cons?
    ensures Stops(nodes, f) ==
      (if Stop(nodes, f.id) then [f.id] else []) + Stops(nodes, f.kids) + Stops(nodes, f.rest)
  {
  }

  /** What comes in order in the children of a node comes so in the whole. */
  lemma {:induction false} BeforeInKids(nodes: Nodes, f: Forest, p: Id, x: Id, y: Id)
    requires p in Labels(f) && Before(Stops(nodes, KidsOf(f, p)), x, y)
    ensures Before(Stops(nodes, f), x, y)
    decreases f
  {
    KidsCases(f, p);
    hide *;
    StopsCons(nodes, f);
    var own := if Stop(nodes, f.id) then [f.id] else [];
    if f.id == p {
      BeforeWithin(own, Stops(nodes, f.kids), Stops(nodes, f.rest), x, y);
    } else if p in Labels(f.kids) {
      BeforeInKids(nodes, f.kids, p, x, y);
      BeforeWithin(own, Stops(nodes, f.kids), Stops(nodes, f.rest), x, y);
    } else {
      BeforeInKids(nodes, f.rest, p, x, y);
      ConcatNil(own + Stops(nodes, f.kids) + Stops(nodes, f.rest));
      BeforeWithin(own + Stops(nodes, f.kids), Stops(nodes, f.rest), [], x, y);
    }
  }

  lemma KidsCases(f: Forest, p: Id)
    requires p in Labels(f)
    ensures f.Cons? && (f.id != p && p !in Labels(f.kids) ==> p in Labels(f.rest))
    ensures KidsOf(f, p) ==
      if f.id == p then f.kids else if p in Labels(f.kids) then KidsOf(f.kids, p) else KidsOf(f.rest, p)
  {
  }

  /** A node comes before what is below it. */
  lemma {:induction false} ParentFirst(nodes: Nodes, f: Forest, x: Id, y: Id)
    requires x in Labels(f) && y in Labels(KidsOf(f, x)) && Stop(nodes, x) && Stop(nodes, y)
    ensures Before(Stops(nodes, f), x, y)
    decreases f
  {
    KidsCases(f, x);
    StopsAre(nodes, f.kids);
    hide *;
    StopsCons(nodes, f);
    var own := if Stop(nodes, f.id) then [f.id] else [];
    if f.id == x {
      BeforeApart(own, Stops(nodes, f.kids), x, y);
      ConcatNil(own + Stops(nodes, f.kids));
      BeforeWithin([], own + Stops(nodes, f.kids), Stops(nodes, f.rest), x, y);
    } else if x in Labels(f.kids) {
      ParentFirst(nodes, f.kids, x, y);
      BeforeWithin(own, Stops(nodes, f.kids), Stops(nodes, f.rest), x, y);
    } else {
      ParentFirst(nodes, f.rest, x, y);
      ConcatNil(own + Stops(nodes, f.kids) + Stops(nodes, f.rest));
      BeforeWithin(own + Stops(nodes, f.kids), Stops(nodes, f.rest), [], x, y);
    }
  }

  /** What is in an earlier tree of a forest comes before what is in a later one. */
  lemma {:induction false} TreesInOrder(nodes: Nodes, f: Forest, i: nat, j: nat, x: Id, y: Id)
    requires Distinct(f) && i < j < |Roots(f)| && Roots(f)[i] in Labels(f) && Roots(f)[j] in Labels(f)
    requires x in Subtree(f, Roots(f)[i]) && y in Subtree(f, Roots(f)[j]) && Stop(nodes, x) && Stop(nodes, y)
    ensures Before(Stops(nodes, f), x, y)
    decreases f
  {
    RootsAreLabels(f.rest);
    assert Roots(f)[1..] == Roots(f.rest) && Roots(f)[j] == Roots(f.rest)[j - 1];
    InRest(f, Roots(f)[j]);
    var own := if Stop(nodes, f.id) then [f.id] else [];
    StopsCons(nodes, f);
    if i == 0 {
      StopsAre(nodes, f.kids);
      StopsAre(nodes, f.rest);
      KidsAreLabels(f.rest, Roots(f)[j]);
      assert x in own + Stops(nodes, f.kids) && y in Stops(nodes, f.rest);
      BeforeApart(own + Stops(nodes, f.kids), Stops(nodes, f.rest), x, y);
    } else {
      assert Roots(f)[i] == Roots(f.rest)[i - 1];
      InRest(f, Roots(f)[i]);
      TreesInOrder(nodes, f.rest, i - 1, j - 1, x, y);
      ConcatNil(own + Stops(nodes, f.kids) + Stops(nodes, f.rest));
      BeforeWithin(own + Stops(nodes, f.kids), Stops(nodes, f.rest), [], x, y);
    }
  }

  lemma InRest(f: Forest, r: Id)
    requires f.Cons? && Distinct(f) && r in Labels(f.rest)
    ensures r in Labels(f) && Subtree(f, r) == Subtree(f.rest, r) && Subtree(f.rest, r) <= Labels(f.rest)
  {
    KidsAreLabels(f.rest, r);
  }

  /** The children of a node below `p` are the same seen from `p`. */
  lemma {:induction false} SubtreeInside(f: Forest, p: Id, r: Id)
    requires Distinct(f) && p in Labels(f) && r in Labels(KidsOf(f, p))
    ensures r in Labels(f) && Subtree(f, r) == Subtree(KidsOf(f, p), r)
    decreases f
  {
    if f.id != p {
      if p in Labels(f.kids) {
        SubtreeInside(f.kids, p, r);
      } else {
        SubtreeInside(f.rest, p, r);
      }
    }
  }

  /**
   The traversal is the preorder of the tree: a node comes before all that is below it, and all that is
   below an earlier child, the child included, before all that is below a later one.
   */
  lemma FocusOrderIsPreorder(nodes: Nodes, p: Id, i: nat, j: nat, x: Id, y: Id)
    requires IsTree(nodes) && p in nodes && x in nodes && y in nodes && Focusable(nodes[x]) && Focusable(nodes[y])
    ensures y != x && y in Subtree(Shape(nodes), x) ==> Before(FocusOrder(nodes), x, y)
    ensures i < j < |nodes[p].children| ==> nodes[p].children[i] in nodes && nodes[p].children[j] in nodes
    ensures i < j < |nodes[p].children|
            && x in Subtree(Shape(nodes), nodes[p].children[i]) && y in Subtree(Shape(nodes), nodes[p].children[j])
      ==> Before(FocusOrder(nodes), x, y)
  {
    var f := Shape(nodes);
    FocusOrderIs(nodes);
    StopsAre(nodes, f);
    assert Stop(nodes, x) && Stop(nodes, y);
    if y != x && y in Subtree(f, x) { ParentFirst(nodes, f, x, y); }
    EncodesAt(nodes, f, NO_PARENT, p);
    KidsAreLabels(f, p);
    hide *;
    if i < j < |nodes[p].children| {
      var kids := KidsOf(f, p);
      RootsAreLabels(kids);
      var a, b := nodes[p].children[i], nodes[p].children[j];
      SubtreeInside(f, p, a);
      SubtreeInside(f, p, b);
      if x in Subtree(f, a) && y in Subtree(f, b) {
        TreesInOrder(nodes, kids, i, j, x, y);
        BeforeInKids(nodes, f, p, x, y);
      }
    }
  }

  lemma StopsStep(nodes: Nodes, f: Forest)
    requires f.Cons?
    ensures Stops(nodes, f) == Stops(nodes, Cons(f.id, f.kids, Nil)) + Stops(nodes, f.rest)
  {
  }

  lemma NoStop(nodes: Nodes, f: Forest, id: Id)
    requires Encodes(nodes, f, id) && NO_PARENT !in nodes && HeadOr(Stops(nodes, f)) == ""
    ensures Stops(nodes, f) == []
  {
    StopsAre(nodes, f);
    EncodesLabels(nodes, f, id);
  }

  /** Loop state: `res` is `own` with the stops of the part of `kids` before `left`. */
  ghost predicate Visited(nodes: Nodes, id: Id, kids: Forest, left: Forest, todo: seq<Id>, own: seq<Id>, res: seq<Id>) {
    && Ahead(nodes, id, kids, left, todo)
    && res + Stops(nodes, left) == own + Stops(nodes, kids)
  }

  lemma VisitStart(nodes: Nodes, id: Id, kids: Forest, parent: Id, out: seq<Id>, own: seq<Id>)
    requires Encodes(nodes, Cons(id, kids, Nil), parent) && own == if Stop(nodes, id) then out + [id] else out
    ensures Visited(nodes, id, kids, kids, nodes[id].children, own, own)
    ensures out + Stops(nodes, Cons(id, kids, Nil)) == own + Stops(nodes, kids)
  {
    var stop := if Stop(nodes, id) then [id] else [];
    ConcatNil(stop + Stops(nodes, kids));
    ConcatNil(Stops(nodes, kids));
    ConcatAssoc(out, stop, Stops(nodes, kids));
  }

  lemma VisitNext(nodes: Nodes, id: Id, kids: Forest, left: Forest, c: Id, todo: seq<Id>, own: seq<Id>, res: seq<Id>)
    requires Visited(nodes, id, kids, left, [c] + todo, own, res)
    ensures left.Cons? && left.id == c && Encodes(nodes, Cons(c, left.kids, Nil), id) && left.kids < kids
    ensures Visited(nodes, id, kids, left.rest, todo, own, res + Stops(nodes, Cons(c, left.kids, Nil)))
  {
    AheadStep(nodes, id, kids, left, c, todo);
    StopsStep(nodes, left);
    hide Stops;
    hide Ahead;
    ConcatAssoc(res, Stops(nodes, Cons(c, left.kids, Nil)), Stops(nodes, left.rest));
  }

  lemma VisitEnd(nodes: Nodes, id: Id, kids: Forest, left: Forest, own: seq<Id>, res: seq<Id>)
    requires Visited(nodes, id, kids, left, [], own, res)
    ensures res == own + Stops(nodes, kids)
  {
    NoneLeft(nodes, left);
    ConcatNil(res);
  }

  /** The walk of FocusableIDs, appending to `out`. */
  method WalkFocusable(nodes: Nodes, id: Id, out: seq<Id>, ghost kids: Forest, ghost parent: Id)
    returns (res: seq<Id>)
    requires Encodes(nodes, Cons(id, kids, Nil), parent)
    ensures res == out + Stops(nodes, Cons(id, kids, Nil))
    decreases kids
  {
    res := out;
    var n := nodes[id];
    if id != ROOT && Focusable(n) { res := res + [id]; }
    ghost var own, left := res, kids;
    VisitStart(nodes, id, kids, parent, out, own);
    hide *;
    for i := 0 to |n.children|
      invariant Visited(nodes, id, kids, left, n.children[i..], own, res)
    {
      assert n.children[i..] == [n.children[i]] + n.children[i + 1..];
      VisitNext(nodes, id, kids, left, n.children[i], n.children[i + 1..], own, res);
      res := WalkFocusable(nodes, n.children[i], res, left.kids, id);
      left := left.rest;
    }
    VisitEnd(nodes, id, kids, left, own, res);
  }

  lemma NoneLeft(nodes: Nodes, f: Forest)
    requires Roots(f) == []
    ensures Stops(nodes, f) == []
  {
  }

  method FocusableIDs(d: Document) returns (out: seq<Id>)
    requires IsTree(d.nodes)
    ensures out == FocusOrder(d.nodes)
  {
    out := WalkFocusable(d.nodes, ROOT, [], Shape(d.nodes).kids, NO_PARENT);
  }

  /** The depth-first search stops at the head of the order. */
  method FirstFocusable(nodes: Nodes, id: Id, ghost kids: Forest, ghost parent: Id) returns (found: Id)
    requires Encodes(nodes, Cons(id, kids, Nil), parent) && NO_PARENT !in nodes
    ensures found == HeadOr(Stops(nodes, Cons(id, kids, Nil)))
    decreases kids
  {
    FirstStart(nodes, id, kids, parent);
    hide *;
    if id !in nodes { return ""; }
    var n := nodes[id];
    if id != ROOT && Focusable(n) { return id; }
    ghost var left := kids;
    assert n.children[0..] == n.children;
    for i := 0 to |n.children|
      invariant Ahead(nodes, id, kids, left, n.children[i..])
      invariant HeadOr(Stops(nodes, left)) == HeadOr(Stops(nodes, kids))
    {
      assert n.children[i..] == [n.children[i]] + n.children[i + 1..];
      AheadStep(nodes, id, kids, left, n.children[i], n.children[i + 1..]);
      FirstStep(nodes, left, id);
      var c := FirstFocusable(nodes, n.children[i], left.kids, id);
      if c != "" { return c; }
      left := left.rest;
    }
    assert n.children[|n.children|..] == [];
    FirstEnd(nodes, id, kids, left);
    return "";
  }

  lemma FirstStart(nodes: Nodes, id: Id, kids: Forest, parent: Id)
    requires Encodes(nodes, Cons(id, kids, Nil), parent)
    ensures id in nodes && Ahead(nodes, id, kids, kids, nodes[id].children)
    ensures HeadOr(Stops(nodes, Cons(id, kids, Nil))) ==
      if id != ROOT && Focusable(nodes[id]) then id else HeadOr(Stops(nodes, kids))
  {
    hide Focusable;
    ConcatNil(Stops(nodes, kids));
  }

  lemma FirstStep(nodes: Nodes, f: Forest, id: Id)
    requires f.Cons? && Encodes(nodes, Cons(f.id, f.kids, Nil), id) && NO_PARENT !in nodes
    ensures var c := HeadOr(Stops(nodes, Cons(f.id, f.kids, Nil)));
      HeadOr(Stops(nodes, f)) == if c != "" then c else HeadOr(Stops(nodes, f.rest))
  {
    StopsStep(nodes, f);
    if HeadOr(Stops(nodes, Cons(f.id, f.kids, Nil))) == "" {
      NoStop(nodes, Cons(f.id, f.kids, Nil), id);
      ConcatNil(Stops(nodes, f.rest));
    }
    hide Stops;
  }

  lemma FirstEnd(nodes: Nodes, id: Id, kids: Forest, left: Forest)
    requires Ahead(nodes, id, kids, left, [])
    ensures HeadOr(Stops(nodes, left)) == ""
  {
    NoneLeft(nodes, left);
  }
}

/** document/invariants.go: the recursive validator, proved to decide `Valid` exactly. */
module Validator {
  import opened Forests
  import opened Protocol
  import opened Documents
  import opened Sums

  /** `f` is the single tree with root `id` that `nodes` stores below `id`, with sound nodes. */
  ghost predicate TreeAt(nodes: Nodes, id: Id, f: Forest) {
    && f.Cons? && f.id == id && f.rest == Nil && Distinct(f)
    && id in nodes && nodes[id].id == id && nodes[id].children == Roots(f.kids)
    && Encodes(nodes, f.kids, id)
    && Labels(f) <= nodes.Keys
    && forall x :: x in Labels(f) ==> NodeOk(nodes[x])
  }

  /** The tree `f`, whose root is at depth `depth`, respects the depth and child limits. */
  ghost predicate TreeFits(nodes: Nodes, f: Forest, depth: int, limits: Limits) {
    depth + Height(f) <= limits.maxDepth + 1 && ChildrenFit(nodes, Labels(f), limits)
  }

  /** A forest of such trees below `parent`: the part of a child list already walked. */
  ghost predicate ForestAt(nodes: Nodes, parent: Id, f: Forest) {
    && Distinct(f) && Encodes(nodes, f, parent) && Labels(f) <= nodes.Keys
    && forall x :: x in Labels(f) ==> NodeOk(nodes[x])
  }

  lemma ForestSnoc(nodes: Nodes, parent: Id, acc: Forest, f: Forest, depth: int, limits: Limits)
    requires f.Cons? && ForestAt(nodes, parent, acc) && TreeAt(nodes, f.id, f) && nodes[f.id].parent == parent
    requires Labels(acc) !! Labels(f)
    ensures ForestAt(nodes, parent, Append(acc, f))
    ensures Roots(Append(acc, f)) == Roots(acc) + [f.id]
    ensures Labels(Append(acc, f)) == Labels(acc) + Labels(f)
    ensures TreeFits(nodes, acc, depth, limits) && TreeFits(nodes, f, depth, limits)
      ==> TreeFits(nodes, Append(acc, f), depth, limits)
  {
    AppendFacts(acc, f);
    EncodesAppend(nodes, parent, acc, f);
    assert Roots(f) == [f.id];
  }

  lemma EncodesAppend(nodes: Nodes, parent: Id, f: Forest, g: Forest)
    requires Encodes(nodes, f, parent) && Encodes(nodes, g, parent)
    ensures Encodes(nodes, Append(f, g), parent)
  {
  }

  /** Splitting the first tree off a forest. */
  lemma ForestHead(nodes: Nodes, parent: Id, f: Forest, depth: int, limits: Limits)
    requires f.Cons? && ForestAt(nodes, parent, f)
    ensures TreeAt(nodes, f.id, Cons(f.id, f.kids, Nil)) && nodes[f.id].parent == parent
    ensures ForestAt(nodes, parent, f.rest)
    ensures TreeFits(nodes, f, depth, limits)
      <==> TreeFits(nodes, Cons(f.id, f.kids, Nil), depth, limits) && TreeFits(nodes, f.rest, depth, limits)
  {
    var t := Cons(f.id, f.kids, Nil);
    assert Labels(f) == Labels(t) + Labels(f.rest);
    assert Height(t) <= Height(f) && Height(f.rest) <= Height(f);
    if ChildrenFit(nodes, Labels(f), limits) {
      assert ChildrenFit(nodes, Labels(t), limits) && ChildrenFit(nodes, Labels(f.rest), limits);
    }
  }

  /** Loop state: the walked children `acc`, and what is left of the stored tree `g`, if there is one. */
  ghost predicate Walked(nodes: Nodes, limits: Limits, id: Id, depth: int, walked: seq<Id>, acc: Forest) {
    && ForestAt(nodes, id, acc) && Roots(acc) == walked
    && TreeFits(nodes, acc, depth + 1, limits)
  }

  ghost predicate Remaining(nodes: Nodes, limits: Limits, id: Id, depth: int, todo: seq<Id>, g: Forest, left: Forest) {
    && ForestAt(nodes, id, left) && Roots(left) == todo
    && (TreeFits(nodes, g, depth, limits) <==> TreeFits(nodes, left, depth + 1, limits))
  }

  function HeadTree(f: Forest): Forest { if f.Cons? then Cons(f.id, f.kids, Nil) else Nil }
  function RestTrees(f: Forest): Forest { if f.Cons? then f.rest else Nil }

  lemma WalkedNext(nodes: Nodes, limits: Limits, id: Id, depth: int, walked: seq<Id>, acc: Forest, c: Id, t: Forest)
    requires Walked(nodes, limits, id, depth, walked, acc)
    requires TreeAt(nodes, c, t) && TreeFits(nodes, t, depth + 1, limits) && nodes[c].parent == id
    requires Labels(acc) !! Labels(t)
    ensures Walked(nodes, limits, id, depth, walked + [c], Append(acc, t))
    ensures Labels(Append(acc, t)) == Labels(acc) + Labels(t)
  {
    ForestSnoc(nodes, id, acc, t, depth + 1, limits);
  }

  lemma RemainingNext(nodes: Nodes, limits: Limits, id: Id, depth: int, c: Id, todo: seq<Id>, g: Forest, left: Forest)
    requires Remaining(nodes, limits, id, depth, [c] + todo, g, left)
    ensures TreeAt(nodes, c, HeadTree(left)) && nodes[c].parent == id
    ensures Labels(left) == Labels(HeadTree(left)) + Labels(RestTrees(left))
    ensures Labels(HeadTree(left)) !! Labels(RestTrees(left))
    ensures TreeFits(nodes, HeadTree(left), depth + 1, limits)
      ==> Remaining(nodes, limits, id, depth, todo, g, RestTrees(left))
    ensures !TreeFits(nodes, HeadTree(left), depth + 1, limits) ==> !TreeFits(nodes, g, depth, limits)
  {
    assert left.Cons?;
    assert Roots(left)[0] == c && Roots(left)[1..] == todo;
    ForestHead(nodes, id, left, depth + 1, limits);
  }

  lemma RemainingStart(nodes: Nodes, limits: Limits, id: Id, depth: int, g: Forest)
    requires TreeAt(nodes, id, g) && |nodes[id].children| <= limits.maxChildren
    ensures Remaining(nodes, limits, id, depth, nodes[id].children, g, g.kids)
    ensures Labels(g) == {id} + Labels(g.kids) && id !in Labels(g.kids)
  {
    assert Labels(g) == {id} + Labels(g.kids);
    assert Height(g) == 1 + Height(g.kids);
    assert ChildrenFit(nodes, {id} + Labels(g.kids), limits) <==> ChildrenFit(nodes, Labels(g.kids), limits);
  }

  lemma WalkedNone(nodes: Nodes, limits: Limits, id: Id, depth: int)
    requires depth <= limits.maxDepth
    ensures Walked(nodes, limits, id, depth, [], Nil)
  {
  }

  lemma RemainingNone(nodes: Nodes, limits: Limits, id: Id, depth: int, g: Forest, left: Forest)
    requires Remaining(nodes, limits, id, depth, [], g, left) && depth <= limits.maxDepth
    ensures TreeFits(nodes, g, depth, limits)
  {
    assert left == Nil;
  }

  lemma WalkedAll(nodes: Nodes, limits: Limits, id: Id, depth: int, acc: Forest)
    requires id in nodes && nodes[id].id == id && NodeOk(nodes[id]) && |nodes[id].children| <= limits.maxChildren
    requires Walked(nodes, limits, id, depth, nodes[id].children, acc) && id !in Labels(acc)
    ensures TreeAt(nodes, id, Cons(id, acc, Nil)) && TreeFits(nodes, Cons(id, acc, Nil), depth, limits)
    ensures Labels(Cons(id, acc, Nil)) == {id} + Labels(acc)
  {
  }

  lemma TreeAtUnique(nodes: Nodes, c: Id, t: Forest, u: Forest)
    requires TreeAt(nodes, c, t) && TreeAt(nodes, c, u)
    ensures t == u
  {
    EncodesUnique(nodes, t.kids, u.kids, c, c);
  }

  lemma NoLabels()
    ensures Labels(Nil) == {}
  {
  }

  /** What a stored tree tells the checks at its root. */
  lemma TreeFacts(nodes: Nodes, limits: Limits, id: Id, depth: int, g: Forest)
    requires TreeAt(nodes, id, g)
    ensures g.Cons? && id in nodes && nodes[id].id == id && NodeOk(nodes[id]) && id in Labels(g)
    ensures nodes[id].kind.Valid() && (nodes[id].children == [] || nodes[id].kind.Container())
    ensures depth > limits.maxDepth || |nodes[id].children| > limits.maxChildren ==> !TreeFits(nodes, g, depth, limits)
    ensures DepthLimit.Resource() && ChildrenLimit.Resource()
  {
  }

  lemma NodeIsOk(n: Node)
    ensures NodeOk(n) <==> n.kind.Valid() && (n.children == [] || n.kind.Container())
  {
  }

  class Walker {
    const nodes: Nodes
    const limits: Limits
    var seen: set<Id>
    var visited: set<Id>

    constructor (nodes: Nodes, limits: Limits)
      ensures this.nodes == nodes && this.limits == limits && seen == {} && visited == {}
    {
      this.nodes, this.limits := nodes, limits;
      seen, visited := {}, {};
    }

    /**
     Success yields the tree below `id`, none of it visited before, and marks exactly that tree.
     If a tree `g` is stored below `id`, the walk succeeds exactly when `g` respects the limits, and
     can only fail with a resource code. The depth limit bounds the recursion on cyclic maps too.
     */
    method Walk(id: Id, depth: int, ghost g: Forest) returns (err: Result, ghost f: Forest)
      requires depth >= 0
      requires seen <= visited
      modifies this
      ensures err.None? ==>
        && TreeAt(nodes, id, f) && TreeFits(nodes, f, depth, limits) && Labels(f) !! old(visited)
        && visited == old(visited) + Labels(f) && seen == old(seen)
      ensures TreeAt(nodes, id, g) && Labels(g) !! old(visited) ==>
        && (err.None? <==> TreeFits(nodes, g, depth, limits))
        && (err.Some? ==> err.value.Resource())
      decreases limits.maxDepth + 1 - depth
    {
      hide *;
      f := Nil;
      ghost var good := TreeAt(nodes, id, g) && Labels(g) !! old(visited);
      if good { TreeFacts(nodes, limits, id, depth, g); }
      if depth > limits.maxDepth { return Some(DepthLimit), f; }
      if id in seen { return Some(Cycle), f; }
      if id in visited { return Some(Invariant), f; }
      seen, visited := seen + {id}, visited + {id};
      if id !in nodes { return Some(Invariant), f; }
      var n := nodes[id];
      if n.id != id || !n.kind.Valid() { return Some(Invariant), f; }
      if |n.children| > limits.maxChildren { return Some(ChildrenLimit), f; }
      if |n.children| > 0 && !n.kind.Container() { return Some(ParentNotContainer), f; }
      NodeIsOk(n);
      WalkedNone(nodes, limits, id, depth);
      ghost var acc, left := Nil, if good then g.kids else Nil;
      if good { RemainingStart(nodes, limits, id, depth, g); }
      NoLabels();
      for i := 0 to |n.children|
        invariant seen == old(seen) + {id} && visited == old(visited) + {id} + Labels(acc)
        invariant id !in Labels(acc) && Labels(acc) !! old(visited)
        invariant Walked(nodes, limits, id, depth, n.children[..i], acc)
        invariant good ==> Remaining(nodes, limits, id, depth, n.children[i..], g, left) && Labels(left) !! visited
      {
        var c := n.children[i];
        assert n.children[i..] == [c] + n.children[i + 1..];
        if good { RemainingNext(nodes, limits, id, depth, c, n.children[i + 1..], g, left); }
        if c !in nodes || nodes[c].parent != id { return Some(Invariant), Nil; }
        ghost var t;
        err, t := Walk(c, depth + 1, HeadTree(left));
        if err.Some? { return err, Nil; }
        if good { TreeAtUnique(nodes, c, t, HeadTree(left)); }
        WalkedNext(nodes, limits, id, depth, n.children[..i], acc, c, t);
        acc, left := Append(acc, t), RestTrees(left);
        assert n.children[..i + 1] == n.children[..i] + [c];
      }
      assert n.children[..|n.children|] == n.children && n.children[|n.children|..] == [];
      seen := seen - {id};
      f := Cons(id, acc, Nil);
      WalkedAll(nodes, limits, id, depth, acc);
      if good { RemainingNone(nodes, limits, id, depth, g, left); }
      err := None;
    }
  }

  // ---- byte accounting, over a map visited in any order ----

  method CountProps(p: Props) returns (total: int)
    ensures total == Sum(p.Keys, PropWeight(p))
  {
    total := 0;
    var todo := p.Keys;
    while todo != {}
      invariant todo <= p.Keys && total + Sum(todo, PropWeight(p)) == Sum(p.Keys, PropWeight(p))
    {
      var k :| k in todo;
      SumTake(todo, PropWeight(p), k);
      total := total + |k| + |p[k].bytes|;
      todo := todo - {k};
    }
  }

  method CountMarks(m: map<string, bool>) returns (total: int)
    ensures total == Sum(m.Keys, MarkWeight(m))
  {
    total := 0;
    var todo := m.Keys;
    while todo != {}
      invariant todo <= m.Keys && total + Sum(todo, MarkWeight(m)) == Sum(m.Keys, MarkWeight(m))
    {
      var k :| k in todo;
      SumTake(todo, MarkWeight(m), k);
      if m[k] { total := total + |k| + 1; }
      todo := todo - {k};
    }
  }

  method CountNode(n: Node) returns (total: int)
    ensures total == NodeBytes(n)
  {
    total := |n.parent| + |n.text|;
    for i := 0 to |n.children|
      invariant total + LengthSum(n.children[i..]) == |n.parent| + |n.text| + LengthSum(n.children)
    {
      total := total + |n.children[i]|;
    }
    var props := CountProps(n.props);
    total := total + props;
    if n.explicit.Some? {
      var marks := CountMarks(n.explicit.value);
      total := total + marks;
    }
  }

  method CountBytes(nodes: Nodes) returns (text: int, bytes: int)
    ensures text == TextBytes(nodes) && bytes == DocumentBytes(nodes)
  {
    text, bytes := 0, 0;
    var todo := nodes.Keys;
    while todo != {}
      invariant todo <= nodes.Keys
      invariant text + Sum(todo, TextWeight(nodes)) == TextBytes(nodes)
      invariant bytes + Sum(todo, ByteWeight(nodes)) == DocumentBytes(nodes)
    {
      var x :| x in todo;
      SumTake(todo, TextWeight(nodes), x);
      SumTake(todo, ByteWeight(nodes), x);
      text := text + |nodes[x].text|;
      var size := CountNode(nodes[x]);
      bytes := bytes + |x| + size;
      todo := todo - {x};
    }
  }

  // ---- the validator ----

  lemma SameSizeSubset(a: set<Id>, b: set<Id>)
    requires a <= b && |a| == |b|
    ensures a == b
  {
    assert b == a + (b - a);
  }

  /** A stored tree is what the walk looks for below the root. */
  lemma RootTree(nodes: Nodes)
    requires IsTree(nodes)
    ensures ROOT in nodes && nodes[ROOT].kind == Box && nodes[ROOT].id == ROOT && nodes[ROOT].parent == NO_PARENT
    ensures TreeAt(nodes, ROOT, Shape(nodes)) && Labels(Shape(nodes)) == nodes.Keys
  {
    var f := Shape(nodes);
    assert f.kids == f.kids && nodes[ROOT].children == Roots(f.kids);
  }

  /** What a successful walk that reached every node says about the document. */
  lemma WalkedTree(d: Document, limits: Limits, f: Forest)
    requires ROOT in d.nodes && d.nodes[ROOT].kind == Box && d.nodes[ROOT].parent == NO_PARENT
    requires TreeAt(d.nodes, ROOT, f) && TreeFits(d.nodes, f, 0, limits)
    requires Labels(f) == d.nodes.Keys && |d.nodes| <= limits.maxNodes
    ensures WellFormed(d) <==> d.totalTextBytes == TextBytes(d.nodes)
    ensures Valid(d, limits) <==>
      && d.totalTextBytes == TextBytes(d.nodes)
      && DocumentBytes(d.nodes) <= limits.maxDocumentBytes
      && d.totalTextBytes <= limits.maxTotalTextBytes
  {
    assert Shapes(d.nodes, f);
    assert IsTree(d.nodes);
    ShapeIs(d.nodes, f);
    NodeCount(d.nodes);
  }

  /** A walk that fails, or leaves nodes behind, shows a broken limit or no tree at all. */
  lemma UnwalkedTree(d: Document, limits: Limits)
    requires Valid(d, limits)
    ensures IsTree(d.nodes) && |d.nodes| <= limits.maxNodes && TreeFits(d.nodes, Shape(d.nodes), 0, limits)
  {
    RootTree(d.nodes);
    NodeCount(d.nodes);
  }

  /**
   The validator accepts exactly the valid documents, on every node map; a document that is well
   formed can only be refused with a resource code.
   */
  method ValidateInvariants(d: Document, limits: Limits) returns (err: Result)
    ensures err.None? <==> Valid(d, limits)
    ensures WellFormed(d) && err.Some? ==> err.value.Resource()
  {
    var nodes := d.nodes;
    ghost var tree := IsTree(nodes);
    assert WellFormed(d) ==> tree;
    assert Valid(d, limits) ==> WellFormed(d);
    ghost var g := if tree then Shape(nodes) else Nil;
    if tree { RootTree(nodes); }
    if Valid(d, limits) { UnwalkedTree(d, limits); }
    hide Valid;
    hide WellFormed;
    hide TreeAt;
    hide TreeFits;
    if ROOT !in nodes { return Some(Invariant); }
    var root := nodes[ROOT];
    if root.kind != Box || root.id != ROOT || root.parent != NO_PARENT { return Some(Invariant); }
    if |nodes| > limits.maxNodes { return Some(NodeLimit); }
    var walker := new Walker(nodes, limits);
    ghost var f;
    err, f := walker.Walk(ROOT, 0, g);
    if err.Some? { return; }
    if tree { TreeAtUnique(nodes, ROOT, f, g); }
    TreeAtKeys(nodes, f);
    assert |nodes| == |nodes.Keys|;
    if |walker.visited| != |nodes| { return Some(Invariant); }
    SameSizeSubset(walker.visited, nodes.Keys);
    WalkedTree(d, limits, f);
    var text, bytes := CountBytes(nodes);
    if bytes > limits.maxDocumentBytes { return Some(DocumentBytesLimit); }
    if text != d.totalTextBytes { return Some(Invariant); }
    if d.totalTextBytes > limits.maxTotalTextBytes { return Some(TextTooLarge); }
  }

  lemma TreeAtKeys(nodes: Nodes, f: Forest)
    requires TreeAt(nodes, ROOT, f)
    ensures Labels(f) <= nodes.Keys
  {
  }
}

/**
 The three tree surgeries of the reducer. Each changes a node map by a few links; here the tree
 the new map encodes is named, so that no operation can leave a cycle, an orphan or a broken link.
 */
module TreeSteps {
  import opened Forests
  import opened Protocol
  import opened Documents
  import opened Sums
  import opened Reducer

  /** Every label of a forest has its links in the map, and a child knows its parent. */
  lemma ChildParent(nodes: Nodes, f: Forest, parent: Id, y: Id, x: Id)
    requires Encodes(nodes, f, parent) && Distinct(f) && y in Labels(f) && y in nodes && x in nodes[y].children
    ensures x in Labels(f) && x in nodes && nodes[x].parent == y && x in Roots(KidsOf(f, y))
  {
    EncodesAt(nodes, f, parent, y);
    var k := KidsOf(f, y);
    KidsAreLabels(f, y);
    RootsAreLabels(k);
    EncodesAt(nodes, k, y, x);
  }

  lemma EncodesPruned(nodes: Nodes, nodes': Nodes, f: Forest, parent: Id, x: Id)
    requires Encodes(nodes, f, parent)
    requires forall y :: y in Labels(Prune(f, x)) ==>
      && y in nodes' && y in nodes && nodes'[y].id == nodes[y].id && nodes'[y].parent == nodes[y].parent
      && nodes'[y].children == Without(nodes[y].children, x)
    ensures Encodes(nodes', Prune(f, x), parent)
  {
    if f.Cons? {
      PruneFacts(f.kids, x);
    }
  }

  lemma {:induction false} EncodesInserted(nodes: Nodes, f: Forest, parent: Id, i: nat, x: Id, kids: Forest)
    requires i <= |Roots(f)| && Encodes(nodes, f, parent) && Encodes(nodes, Cons(x, kids, Nil), parent)
    ensures Encodes(nodes, InsertTree(f, i, x, kids), parent)
    decreases i
  {
    if i > 0 {
      EncodesInserted(nodes, f.rest, parent, i - 1, x, kids);
    }
  }

  lemma {:induction false} EncodesGrafted(nodes: Nodes, nodes': Nodes, f: Forest, parent: Id, p: Id, i: nat, x: Id,
                                          kids: Forest)
    requires Encodes(nodes, f, parent) && Distinct(f) && p in Labels(f) && i <= |Roots(KidsOf(f, p))|
    requires forall y :: y in Labels(f) ==>
      && y in nodes' && y in nodes && nodes'[y].id == nodes[y].id && nodes'[y].parent == nodes[y].parent
      && nodes'[y].children ==
           if y == p then InsertAt(Roots(KidsOf(f, p)), i, x) else nodes[y].children
    requires Encodes(nodes', Cons(x, kids, Nil), p)
    ensures Encodes(nodes', Graft(f, p, i, x, kids), parent)
    decreases f
  {
    if f.id == p {
      InsertTreeFacts(f.kids, i, x, kids);
      EncodesFrame(nodes, nodes', f.kids, p);
      EncodesFrame(nodes, nodes', f.rest, parent);
      EncodesInserted(nodes', f.kids, p, i, x, kids);
    } else if p in Labels(f.kids) {
      EncodesGrafted(nodes, nodes', f.kids, f.id, p, i, x, kids);
      EncodesFrame(nodes, nodes', f.rest, parent);
      GraftRoots(f.kids, p, i, x, kids);
    } else {
      EncodesFrame(nodes, nodes', f.kids, f.id);
      EncodesGrafted(nodes, nodes', f.rest, parent, p, i, x, kids);
    }
  }

  lemma GraftRoots(f: Forest, p: Id, i: nat, x: Id, kids: Forest)
    requires p in Labels(f) && i <= |Roots(KidsOf(f, p))|
    ensures Roots(Graft(f, p, i, x, kids)) == Roots(f)
  {
  }

  // ---- text totals ----

  lemma TextUnchanged(nodes: Nodes, nodes': Nodes)
    requires nodes.Keys == nodes'.Keys && forall x :: x in nodes ==> nodes'[x].text == nodes[x].text
    ensures TextBytes(nodes') == TextBytes(nodes)
  {
    SumEq(nodes.Keys, TextWeight(nodes), TextWeight(nodes'));
  }

  lemma TextUpdated(nodes: Nodes, x: Id, n: Node)
    ensures TextBytes(nodes[x := n]) == TextBytes(nodes) + |n.text| - if x in nodes then |nodes[x].text| else 0
  {
    var nodes' := nodes[x := n];
    SumTake(nodes'.Keys, TextWeight(nodes'), x);
    SumEq(nodes.Keys - {x}, TextWeight(nodes), TextWeight(nodes'));
    assert nodes'.Keys - {x} == nodes.Keys - {x};
    if x in nodes {
      SumTake(nodes.Keys, TextWeight(nodes), x);
    } else {
      assert nodes.Keys - {x} == nodes.Keys;
    }
  }

  lemma TreeFrom(nodes: Nodes, f: Forest)
    requires f.Cons? && f.id == ROOT && f.rest == Nil && Distinct(f) && Labels(f) == nodes.Keys
    requires Encodes(nodes, f, NO_PARENT) && NodesOk(nodes) && nodes[ROOT].kind == Box
    ensures IsTree(nodes) && Shape(nodes) == f
  {
    assert Shapes(nodes, f);
    ShapeIs(nodes, f);
  }

  // ---- content: links untouched ----

  predicate SameLinks(n: Node, m: Node) {
    m.id == n.id && m.parent == n.parent && m.children == n.children
  }

  lemma ContentChanged(nodes: Nodes, x: Id, n: Node)
    requires IsTree(nodes) && x in nodes && SameLinks(nodes[x], n) && NodeOk(n) && (x == ROOT ==> n.kind == Box)
    ensures IsTree(nodes[x := n]) && Shape(nodes[x := n]) == Shape(nodes)
    ensures nodes[x := n].Keys == nodes.Keys
  {
    var f := Shape(nodes);
    var nodes' := nodes[x := n];
    EncodesFrame(nodes, nodes', f, NO_PARENT);
    assert nodes'.Keys == nodes.Keys;
    TreeFrom(nodes', f);
  }

  // ---- a fresh leaf ----

  lemma FreshLeaf(nodes: Nodes, p: Id, n: Node, index: Option<int>)
    requires IsTree(nodes) && p in nodes && nodes[p].kind.Container() && n.id !in nodes
    requires n.parent == p && n.children == [] && n.kind.Valid()
    ensures var nodes' := nodes[n.id := n][p := nodes[p].(children := InsertChild(nodes[p].children, n.id, index))];
      && p in Labels(Shape(nodes)) && nodes[p].children == Roots(KidsOf(Shape(nodes), p))
      && IsTree(nodes')
      && Shape(nodes') == Graft(Shape(nodes), p, InsertIndex(|nodes[p].children|, index), n.id, Nil)
      && nodes'.Keys == nodes.Keys + {n.id}
  {
    var f := Shape(nodes);
    EncodesAt(nodes, f, NO_PARENT, p);
    hide Graft;
    hide KidsOf;
    var x, i := n.id, InsertIndex(|nodes[p].children|, index);
    var nodes' := nodes[x := n][p := nodes[p].(children := InsertAt(Roots(KidsOf(f, p)), i, x))];
    GraftedTree(nodes, nodes', f, p, i, x, Nil);
  }

  /** A map that differs from the encoding of `f` by one subtree hung under `p` encodes the graft. */
  lemma GraftedTree(nodes: Nodes, nodes': Nodes, f: Forest, p: Id, i: nat, x: Id, kids: Forest)
    requires f.Cons? && f.id == ROOT && f.rest == Nil && Distinct(f) && Encodes(nodes, f, NO_PARENT)
    requires p in Labels(f) && i <= |Roots(KidsOf(f, p))|
    requires Distinct(kids) && x !in Labels(f) && x !in Labels(kids) && Labels(f) !! Labels(kids)
    requires forall y :: y in Labels(f) ==>
      && y in nodes' && y in nodes && nodes'[y].id == nodes[y].id && nodes'[y].parent == nodes[y].parent
      && nodes'[y].children ==
           if y == p then InsertAt(Roots(KidsOf(f, p)), i, x) else nodes[y].children
    requires Encodes(nodes', Cons(x, kids, Nil), p)
    requires nodes'.Keys == Labels(f) + {x} + Labels(kids)
    requires NodesOk(nodes') && nodes'[ROOT].kind == Box
    ensures IsTree(nodes') && Shape(nodes') == Graft(f, p, i, x, kids)
  {
    EncodesGrafted(nodes, nodes', f, NO_PARENT, p, i, x, kids);
    GraftFacts(f, p, i, x, kids);
    GraftKeepsRoot(f, p, i, x, kids);
    TreeFrom(nodes', Graft(f, p, i, x, kids));
  }

  lemma GraftKeepsRoot(f: Forest, p: Id, i: nat, x: Id, kids: Forest)
    requires f.Cons? && f.rest == Nil && p in Labels(f) && i <= |Roots(KidsOf(f, p))|
    ensures Graft(f, p, i, x, kids).Cons? && Graft(f, p, i, x, kids).id == f.id && Graft(f, p, i, x, kids).rest == Nil
  {
  }

  // ---- removal ----

  /** Outside the subtree, only the parent of `x` lists `x`. */
  lemma OnlyParentLists(nodes: Nodes, x: Id, y: Id)
    requires IsTree(nodes) && x in nodes && x != ROOT && y in nodes
    ensures y != nodes[x].parent ==> Without(nodes[y].children, x) == nodes[y].children
    ensures nodes[x].parent !in Subtree(Shape(nodes), x)
  {
    var f := Shape(nodes);
    WithoutFacts(nodes[y].children, x);
    if x in nodes[y].children {
      ChildParent(nodes, f, NO_PARENT, y, x);
    }
    EncodesAt(nodes, f, NO_PARENT, x);
    if nodes[x].parent in Subtree(f, x) {
      SubtreeLevels(f, x, nodes[x].parent);
    }
  }

  lemma SubtreeLevels(f: Forest, x: Id, y: Id)
    requires Distinct(f) && x in Labels(f) && y in Labels(f) && y in Subtree(f, x)
    ensures Level(f, x) <= Level(f, y)
  {
    if f.id != x {
      if x in Labels(f.kids) { KidsAreLabels(f.kids, x); } else { KidsAreLabels(f.rest, x); }
    }
  }

  lemma Removed(nodes: Nodes, x: Id)
    requires IsTree(nodes) && x in nodes && x != ROOT
    ensures var nodes' := CutNodes(nodes, x, Subtree(Shape(nodes), x));
      && IsTree(nodes')
      && Shape(nodes') == Prune(Shape(nodes), x)
      && nodes'.Keys == nodes.Keys - Subtree(Shape(nodes), x)
  {
    var f := Shape(nodes);
    var gone := Subtree(f, x);
    var nodes' := CutNodes(nodes, x, gone);
    var g := Prune(f, x);
    PruneFacts(f, x);
    PruneLabels(f, x);
    KidsAreLabels(f, x);
    forall y | y in Labels(g)
      ensures y in nodes && y in nodes' && nodes'[y].id == nodes[y].id && nodes'[y].parent == nodes[y].parent
      ensures nodes'[y].children == Without(nodes[y].children, x)
    {
      EncodesAt(nodes, f, NO_PARENT, y);
      OnlyParentLists(nodes, x, y);
    }
    EncodesPruned(nodes, nodes', f, NO_PARENT, x);
    assert nodes'.Keys == nodes.Keys - gone;
    ShrunkNodesOk(nodes, x, gone);
    TreeFrom(nodes', g);
  }

  lemma TextRemoved(nodes: Nodes, x: Id, gone: set<Id>)
    requires x in nodes && gone <= nodes.Keys
    ensures TextBytes(CutNodes(nodes, x, gone)) == TextBytes(nodes) - Sum(gone, TextWeight(nodes))
  {
    var nodes' := CutNodes(nodes, x, gone);
    assert nodes'.Keys == nodes.Keys - gone;
    SumUnion(nodes'.Keys, gone, TextWeight(nodes));
    assert nodes'.Keys + gone == nodes.Keys;
    SumEq(nodes'.Keys, TextWeight(nodes), TextWeight(nodes'));
  }

  lemma ShrunkNodesOk(nodes: Nodes, x: Id, gone: set<Id>)
    requires NodesOk(nodes) && x in nodes
    ensures NodesOk(CutNodes(nodes, x, gone))
  {
    forall y | y in nodes && y !in gone ensures NodeOk(CutNodes(nodes, x, gone)[y]) {
      WithoutFacts(nodes[y].children, x);
    }
  }

  // ---- relocation ----

  /** Moving `x` under `p`: prune its subtree, then graft it at the asked place. */
  lemma Moved(nodes: Nodes, x: Id, p: Id, index: Option<int>)
    requires IsTree(nodes) && x in nodes && x != ROOT
    requires p in nodes && p !in Subtree(Shape(nodes), x) && nodes[p].kind.Container()
    ensures var f := Shape(nodes);
      var g := Prune(f, x);
      var nodes' := MoveNode(nodes, x, p, index);
      && p in Labels(g)
      && Roots(KidsOf(g, p)) == Without(nodes[p].children, x)
      && IsTree(nodes') && nodes'.Keys == nodes.Keys
      && Shape(nodes') == Graft(g, p, InsertIndex(|Roots(KidsOf(g, p))|, index), x, KidsOf(f, x))
  {
    var f := Shape(nodes);
    var g, kids := Prune(f, x), KidsOf(f, x);
    var nodes' := MoveNode(nodes, x, p, index);
    var out := TakenOut(nodes, x);
    PrunedParts(nodes, f, x, p);
    EncodesAt(nodes, f, NO_PARENT, p);
    EncodesAt(nodes, f, NO_PARENT, x);
    WithoutSubtree(nodes, f, x);
    StoredIds(nodes);
    MovedNodesOk(nodes, x, p, index);
    assert p != x && p !in Labels(kids) && x !in Labels(kids) && Labels(kids) <= Subtree(f, x);
    hide *;
    MovedAgrees(nodes, x, p, index, Labels(g), Roots(KidsOf(g, p)));
    MovedBelow(nodes, x, p, index, kids);
    GraftedTree(out, nodes', g, p, InsertIndex(|Roots(KidsOf(g, p))|, index), x, kids);
  }

  function TakenOut(nodes: Nodes, x: Id): Nodes {
    map y | y in nodes :: nodes[y].(children := Without(nodes[y].children, x))
  }

  lemma MovedAgrees(nodes: Nodes, x: Id, p: Id, index: Option<int>, ys: set<Id>, rest: seq<Id>)
    requires ys <= nodes.Keys && x !in ys && p in nodes && rest == Without(nodes[p].children, x)
    requires forall y :: y in nodes ==> nodes[y].id == y
    ensures var nodes', out := MoveNode(nodes, x, p, index), TakenOut(nodes, x);
      && nodes'.Keys == nodes.Keys
      && (forall y :: y in nodes ==> nodes'[y].kind == nodes[y].kind)
      && forall y :: y in ys ==>
        && y in nodes' && y in out && nodes'[y].id == out[y].id && nodes'[y].parent == out[y].parent
        && nodes'[y].children ==
             if y == p then InsertAt(rest, InsertIndex(|rest|, index), x) else out[y].children
  {
  }

  lemma MovedBelow(nodes: Nodes, x: Id, p: Id, index: Option<int>, kids: Forest)
    requires x in nodes && nodes[x].children == Roots(kids) && Encodes(nodes, kids, x)
    requires Labels(kids) <= nodes.Keys && p != x && p !in Labels(kids) && x !in Labels(kids)
    requires forall y :: y in nodes ==> nodes[y].id == y
    requires forall y :: y in {x} + Labels(kids) ==> Without(nodes[y].children, x) == nodes[y].children
    ensures Encodes(MoveNode(nodes, x, p, index), Cons(x, kids, Nil), p)
  {
    EncodesFrame(nodes, MoveNode(nodes, x, p, index), kids, x);
  }

  lemma StoredIds(nodes: Nodes)
    requires IsTree(nodes)
    ensures ROOT in nodes && forall y :: y in nodes ==> nodes[y].id == y
  {
    forall y | y in nodes ensures nodes[y].id == y {
      EncodesAt(nodes, Shape(nodes), NO_PARENT, y);
    }
  }

  lemma PrunedParts(nodes: Nodes, f: Forest, x: Id, p: Id)
    requires Shapes(nodes, f) && x in nodes && x != ROOT && p in nodes && p !in Subtree(f, x)
    ensures var g, kids := Prune(f, x), KidsOf(f, x);
      && g.Cons? && g.id == ROOT && g.rest == Nil && Distinct(g) && Encodes(TakenOut(nodes, x), g, NO_PARENT)
      && Distinct(kids) && x !in Labels(g) && x !in Labels(kids) && Labels(g) !! Labels(kids)
      && Labels(f) == Labels(g) + {x} + Labels(kids)
      && p in Labels(g) && Roots(KidsOf(g, p)) == Without(Roots(KidsOf(f, p)), x)
  {
    PruneFacts(f, x);
    PruneLabels(f, x);
    KidsAreLabels(f, x);
    EncodesPruned(nodes, TakenOut(nodes, x), f, NO_PARENT, x);
    KidsOfPrune(f, x, p);
    PruneFacts(KidsOf(f, p), x);
  }

  /** No node of the subtree lists its root. */
  lemma WithoutSubtree(nodes: Nodes, f: Forest, x: Id)
    requires Shapes(nodes, f) && x in nodes && x != ROOT
    ensures Labels(KidsOf(f, x)) <= nodes.Keys
    ensures forall y :: y in Subtree(f, x) ==> y in nodes && Without(nodes[y].children, x) == nodes[y].children
  {
    KidsAreLabels(f, x);
    EncodesAt(nodes, f, NO_PARENT, x);
    var k := KidsOf(f, x);
    RootsAreLabels(k);
    WithoutFacts(nodes[x].children, x);
    forall y | y in Labels(k) ensures Without(nodes[y].children, x) == nodes[y].children {
      EncodesAt(nodes, k, x, y);
      KidsAreLabels(k, y);
      RootsAreLabels(KidsOf(k, y));
      WithoutFacts(nodes[y].children, x);
    }
  }

  lemma MovedNodesOk(nodes: Nodes, x: Id, p: Id, index: Option<int>)
    requires NodesOk(nodes) && p in nodes && nodes[p].kind.Container()
    requires forall y :: y in nodes ==> nodes[y].id == y
    ensures NodesOk(MoveNode(nodes, x, p, index))
  {
    forall y | y in nodes ensures NodeOk(Relinked(nodes[y], x, p, index)) {
      WithoutFacts(nodes[y].children, x);
    }
  }
}

/** Removal of a subtree: it never fails, and takes exactly the subtree. */
module RemovalLaws {
  import opened Forests
  import opened Protocol
  import opened Documents
  import opened Sums
  import opened Reducer
  import opened TreeSteps
  import opened Preservation

  // ---- the limits can only get easier ----

  lemma WeightsNonNegative(n: Node)
    ensures 0 <= NodeBytes(n)
  {
    SumSubset({}, n.props.Keys, PropWeight(n.props));
    if n.explicit.Some? {
      SumSubset({}, n.explicit.value.Keys, MarkWeight(n.explicit.value));
    }
  }

  lemma {:induction false} LengthWithout(s: seq<Id>, x: Id)
    ensures LengthSum(Without(s, x)) <= LengthSum(s)
    decreases s
  {
    if s != [] {
      LengthWithout(s[1..], x);
      var r := Without(s[1..], x);
      assert [s[0]] + r != [] && ([s[0]] + r)[1..] == r;
      assert [] + r == r;
    }
  }

  lemma CutBytes(nodes: Nodes, x: Id, gone: set<Id>)
    requires x in nodes
    ensures DocumentBytes(CutNodes(nodes, x, gone)) <= DocumentBytes(nodes)
  {
    var cut := CutNodes(nodes, x, gone);
    forall y | y in nodes ensures 0 <= ByteWeight(nodes)(y) && ByteWeight(cut)(y) <= ByteWeight(nodes)(y) {
      WeightsNonNegative(nodes[y]);
      LengthWithout(nodes[y].children, x);
    }
    SumLe(cut.Keys, ByteWeight(cut), ByteWeight(nodes));
    SumSubset(cut.Keys, nodes.Keys, ByteWeight(nodes));
  }

  lemma CutChildren(nodes: Nodes, x: Id, gone: set<Id>, limits: Limits)
    requires x in nodes && ChildrenFit(nodes, nodes.Keys, limits)
    ensures var cut := CutNodes(nodes, x, gone);
      ChildrenFit(cut, cut.Keys, limits) && |cut| <= |nodes|
  {
    var cut := CutNodes(nodes, x, gone);
    forall y | y in cut ensures |cut[y].children| <= limits.maxChildren {
      WithoutFacts(nodes[y].children, x);
    }
    SubsetSize(cut.Keys, nodes.Keys);
    assert |cut| == |cut.Keys| && |nodes| == |nodes.Keys|;
  }

  lemma SubsetSize(a: set<Id>, b: set<Id>)
    requires a <= b
    ensures |a| <= |b|
  {
    assert b == a + (b - a);
  }

  lemma TextNonNegative(nodes: Nodes, gone: set<Id>)
    ensures 0 <= Sum(gone, TextWeight(nodes))
  {
    SumSubset({}, gone, TextWeight(nodes));
  }

  lemma RemovedValid(d: Document, id: Id, limits: Limits)
    requires Sound(d, limits) && id in d.nodes && id != ROOT
    ensures Valid(Remove(d, id).doc, limits)
  {
    SoundIntact(d, limits);
    var f := Shape(d.nodes);
    var gone := Subtree(f, id);
    var r := Remove(d, id).doc;
    assert r.nodes == CutNodes(d.nodes, id, gone);
    assert r.totalTextBytes == d.totalTextBytes - Sum(gone, TextWeight(d.nodes));
    assert WithinLimits(d, f, limits);
    NodeCount(d.nodes);
    hide Remove;
    hide CutNodes;
    hide Subtree;
    hide Prune;
    RemoveIntact(d, id, limits);
    SoundIntact(r, limits);
    hide Intact;
    hide Kept;
    hide IsTree;
    Removed(d.nodes, id);
    PruneFacts(f, id);
    CutBytes(d.nodes, id, gone);
    CutChildren(d.nodes, id, gone, limits);
    TextNonNegative(d.nodes, gone);
    hide *;
    FitsFrom(r, Prune(f, id), limits);
  }

  lemma FitsFrom(d: Document, f: Forest, limits: Limits)
    requires WellFormed(d) && Shape(d.nodes) == f
    requires |d.nodes| <= limits.maxNodes && Height(f) <= limits.maxDepth + 1
    requires ChildrenFit(d.nodes, d.nodes.Keys, limits) && DocumentBytes(d.nodes) <= limits.maxDocumentBytes
    requires d.totalTextBytes <= limits.maxTotalTextBytes
    ensures Valid(d, limits)
  {
    NodeCount(d.nodes);
  }

  // ---- the removed list ----

  /** In postorder a child comes before its parent. */
  lemma {:induction false} ChildFirst(nodes: Nodes, f: Forest, parent: Id, i: nat, j: nat)
    requires Encodes(nodes, f, parent) && Distinct(f)
    requires i < |Postorder(f)| && j < |Postorder(f)|
    requires Postorder(f)[i] in nodes && nodes[Postorder(f)[i]].parent == Postorder(f)[j]
    requires parent !in Labels(f)
    ensures i < j
    decreases f
  {
    PostorderAt(f, i);
    PostorderAt(f, j);
    ConsParts(nodes, f, parent);
    hide *;
    var a := |Postorder(f.kids)|;
    if i < a {
      if j < a { ChildFirst(nodes, f.kids, f.id, i, j); }
    } else if i > a {
      ParentInside(nodes, f.rest, parent, Postorder(f)[i]);
      if j > a { ChildFirst(nodes, f.rest, parent, i - a - 1, j - a - 1); }
    }
  }

  lemma ConsParts(nodes: Nodes, f: Forest, parent: Id)
    requires Encodes(nodes, f, parent) && Distinct(f) && f.Cons?
    ensures f.id in nodes && nodes[f.id].parent == parent && f.id in Labels(f)
    ensures Encodes(nodes, f.kids, f.id) && Distinct(f.kids) && f.id !in Labels(f.kids)
    ensures Encodes(nodes, f.rest, parent) && Distinct(f.rest) && f.id !in Labels(f.rest)
    ensures Labels(f.kids) !! Labels(f.rest) && Labels(f.kids) <= Labels(f) && Labels(f.rest) <= Labels(f)
  {
  }

  lemma PostorderAt(f: Forest, i: nat)
    requires i < |Postorder(f)|
    ensures f.Cons? && Postorder(f)[i] in Labels(f)
    ensures var a := |Postorder(f.kids)|;
      && |Postorder(f)| == a + 1 + |Postorder(f.rest)|
      && (i < a ==> Postorder(f)[i] == Postorder(f.kids)[i] && Postorder(f)[i] in Labels(f.kids))
      && (i == a ==> Postorder(f)[i] == f.id)
      && (i > a ==> Postorder(f)[i] == Postorder(f.rest)[i - a - 1] && Postorder(f)[i] in Labels(f.rest))
  {
    hide NoRepeats;
    hide Distinct;
    hide Preorder;
    PostorderCons(f);
    hide Postorder;
    hide Labels;
    OrdersListLabels(f);
    OrdersListLabels(f.kids);
    OrdersListLabels(f.rest);
    assert i < |Postorder(f.kids)| ==> Postorder(f.kids)[i] in Postorder(f.kids);
  }

  lemma PostorderCons(f: Forest)
    requires Postorder(f) != []
    ensures f.Cons? && Postorder(f) == Postorder(f.kids) + [f.id] + Postorder(f.rest)
  {
  }

  lemma ParentInside(nodes: Nodes, f: Forest, parent: Id, x: Id)
    requires Encodes(nodes, f, parent) && Distinct(f) && x in Labels(f)
    ensures x in nodes
    ensures nodes[x].parent == parent || nodes[x].parent in Labels(f)
  {
    EncodesAt(nodes, f, parent, x);
  }

  /** `removed` lists the set `gone`, each node once and after its children. */
  ghost predicate ListsBottomUp(nodes: Nodes, removed: seq<Id>, gone: set<Id>) {
    && NoRepeats(removed)
    && (forall x :: x in removed <==> x in gone)
    && forall i, j | 0 <= i < |removed| && 0 <= j < |removed| && removed[i] in nodes
                     && nodes[removed[i]].parent == removed[j] :: i < j
  }

  lemma RemovedList(nodes: Nodes, id: Id)
    requires IsTree(nodes) && id in nodes && id != ROOT
    ensures var f := Shape(nodes);
      ListsBottomUp(nodes, Postorder(KidsOf(f, id)) + [id], Subtree(f, id))
  {
    var f := Shape(nodes);
    var kids := KidsOf(f, id);
    var t := Cons(id, kids, Nil);
    var p := nodes[id].parent;
    EncodesAt(nodes, f, NO_PARENT, id);
    KidsAreLabels(f, id);
    OnlyParentLists(nodes, id, id);
    OrdersListLabels(t);
    assert Postorder(t) == Postorder(kids) + [id];
    forall i, j | 0 <= i < |Postorder(t)| && 0 <= j < |Postorder(t)| && Postorder(t)[i] in nodes
                  && nodes[Postorder(t)[i]].parent == Postorder(t)[j]
      ensures i < j
    {
      ChildFirst(nodes, t, p, i, j);
    }
  }

  /**
   Removing an existing node other than the root always succeeds. The removed list is exactly its
   subtree, bottom-up; every surviving node is unchanged, except that the parent no longer lists
   `id`; and the text total drops by the subtree's text.
   */
  lemma RemoveExactly(d: Document, op: Operation, limits: Limits)
    requires Sound(d, limits) && op.op == OpRemove && ValidateOperation(op, limits).None?
    requires op.id in d.nodes && op.id != ROOT
    ensures ReadyToMove(d.nodes)
    ensures var gone := Subtree(Shape(d.nodes), op.id);
      var r := Apply(d, op, limits);
      && r.Applied? && r.eff.changed
      && ListsBottomUp(d.nodes, r.eff.removed, gone)
      && r.doc.nodes.Keys == d.nodes.Keys - gone
      && d.nodes[op.id].parent in r.doc.nodes
      && (forall y :: y in r.doc.nodes ==>
            r.doc.nodes[y] == if y == d.nodes[op.id].parent
                              then d.nodes[y].(children := Without(d.nodes[y].children, op.id))
                              else d.nodes[y])
      && r.doc.totalTextBytes == d.totalTextBytes - Sum(gone, TextWeight(d.nodes))
      && r.doc.revision == d.revision + 1
  {
    SoundIntact(d, limits);
    ReadyFromIntact(d, limits);
    RemovedValid(d, op.id, limits);
    RemoveParts(d, op.id);
    RemoveDraft(d, op, limits);
    hide *;
    ApplyCases(d, op, limits);
  }

  lemma RemoveParts(d: Document, id: Id)
    requires IsTree(d.nodes) && id in d.nodes && id != ROOT
    ensures var gone := Subtree(Shape(d.nodes), id);
      var r := Remove(d, id);
      && r.Applied? && r.eff.changed
      && ListsBottomUp(d.nodes, r.eff.removed, gone)
      && r.doc.nodes.Keys == d.nodes.Keys - gone
      && d.nodes[id].parent in r.doc.nodes
      && (forall y :: y in r.doc.nodes ==>
            r.doc.nodes[y] == if y == d.nodes[id].parent
                              then d.nodes[y].(children := Without(d.nodes[y].children, id))
                              else d.nodes[y])
      && r.doc.totalTextBytes == d.totalTextBytes - Sum(gone, TextWeight(d.nodes))
  {
    RemovedList(d.nodes, id);
    ParentStored(d.nodes, id);
    OnlyParentLists(d.nodes, id, id);
    hide ListsBottomUp;
    hide Subtree;
    hide IsTree;
  }

  lemma RemoveDraft(d: Document, op: Operation, limits: Limits)
    requires ReadyToMove(d.nodes) && op.op == OpRemove
    ensures Draft(d, op, limits) == Remove(d, op.id)
  {
  }
}

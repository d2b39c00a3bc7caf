/** Exactly when the limits let a new node or new content in. */
module LimitLaws {
  import opened Forests
  import opened Protocol
  import opened Documents
  import opened Sums
  import opened Reducer
  import opened TreeSteps
  import opened Preservation
  import opened UpsertLaws
  import opened ProjectionLaws
  import opened RelocationLimits
  import opened OperationLaws

  // ---- bytes ----

  lemma BytesAt(nodes: Nodes, x: Id, n: Node)
    ensures DocumentBytes(nodes[x := n]) ==
      DocumentBytes(nodes) + NodeBytes(n) + if x in nodes then -NodeBytes(nodes[x]) else |x|
  {
    var next := nodes[x := n];
    SumTake(next.Keys, ByteWeight(next), x);
    assert next.Keys - {x} == nodes.Keys - {x};
    if x in nodes { SumTake(nodes.Keys, ByteWeight(nodes), x); } else { assert nodes.Keys - {x} == nodes.Keys; }
    hide NodeBytes;
    SumEq(nodes.Keys - {x}, ByteWeight(nodes), ByteWeight(next));
  }

  lemma ListedBytes(n: Node, x: Id, index: Option<int>)
    ensures NodeBytes(n.(children := InsertChild(n.children, x, index))) == NodeBytes(n) + |x|
  {
    LengthInserted(n.children, InsertIndex(|n.children|, index), x);
    hide LengthSum;
    hide InsertAt;
    hide PropWeight;
    hide MarkWeight;
  }

  // ---- a new node ----

  /** The document with the leaf `n` under `c`. */
  function WithLeaf(d: Document, n: Node, c: Id, index: Option<int>): Document
    requires c in d.nodes
  {
    d.(nodes := d.nodes[n.id := n][c := d.nodes[c].(children := InsertChild(d.nodes[c].children, n.id, index))])
  }

  lemma LeafBytes(d: Document, n: Node, c: Id, index: Option<int>)
    requires c in d.nodes && n.id !in d.nodes
    ensures DocumentBytes(WithLeaf(d, n, c, index).nodes) == DocumentBytes(d.nodes) + NodeBytes(n) + 2 * |n.id|
  {
    hide *;
    var p := d.nodes[c].(children := InsertChild(d.nodes[c].children, n.id, index));
    LeafNodes(d, n, c, index);
    BytesAt(d.nodes, n.id, n);
    BytesAt(d.nodes[n.id := n], c, p);
    ListedBytes(d.nodes[c], n.id, index);
  }

  lemma LeafNodes(d: Document, n: Node, c: Id, index: Option<int>)
    requires c in d.nodes && n.id !in d.nodes
    ensures WithLeaf(d, n, c, index) ==
      d.(nodes := d.nodes[n.id := n][c := d.nodes[c].(children := InsertChild(d.nodes[c].children, n.id, index))])
  {
    hide InsertChild;
  }

  lemma LeafWidths(d: Document, n: Node, c: Id, index: Option<int>, limits: Limits)
    requires c in d.nodes && n.id !in d.nodes && n.children == [] && ChildrenFit(d.nodes, d.nodes.Keys, limits)
    ensures var next := WithLeaf(d, n, c, index);
      ChildrenFit(next.nodes, next.nodes.Keys, limits) <==> |d.nodes[c].children| < limits.maxChildren
  {
    var next := WithLeaf(d, n, c, index);
    assert |InsertChild(d.nodes[c].children, n.id, index)| == |d.nodes[c].children| + 1;
    assert |d.nodes[c].children| <= limits.maxChildren;
    assert c in next.nodes.Keys;
    hide InsertChild;
  }

  lemma LeafHeight(d: Document, n: Node, c: Id, index: Option<int>)
    requires IsTree(d.nodes) && c in d.nodes && d.nodes[c].kind.Container() && n.id !in d.nodes
    requires n.parent == c && n.children == [] && n.kind.Valid()
    ensures c in Labels(Shape(d.nodes))
    ensures var next := WithLeaf(d, n, c, index);
      && IsTree(next.nodes) && next.nodes.Keys == d.nodes.Keys + {n.id}
      && Height(Shape(next.nodes)) == Most(Height(Shape(d.nodes)), Level(Shape(d.nodes), c) + 2)
  {
    hide *;
    FreshLeaf(d.nodes, c, n, index);
    LeafNodes(d, n, c, index);
    GraftHeight(Shape(d.nodes), c, InsertIndex(|d.nodes[c].children|, index), n.id, Nil);
    NoHeight();
  }

  lemma NoHeight()
    ensures Height(Nil) == 0
  {
  }

  lemma LeafValid(d: Document, n: Node, c: Id, index: Option<int>, limits: Limits)
    requires Valid(d, limits) && IsTree(d.nodes)
    requires c in d.nodes && d.nodes[c].kind.Container() && n.id !in d.nodes
    requires n.parent == c && n.children == [] && n.kind.Valid() && n.text == ""
    ensures c in Labels(Shape(d.nodes))
    ensures Valid(WithLeaf(d, n, c, index), limits) <==>
      && |d.nodes| < limits.maxNodes
      && Level(Shape(d.nodes), c) + 1 <= limits.maxDepth
      && |d.nodes[c].children| < limits.maxChildren
      && DocumentBytes(d.nodes) + NodeBytes(n) + 2 * |n.id| <= limits.maxDocumentBytes
  {
    hide *;
    var next := WithLeaf(d, n, c, index);
    ValidIs(d, limits);
    LeafHeight(d, n, c, index);
    LeafBytes(d, n, c, index);
    LeafWidths(d, n, c, index, limits);
    LeafText(d, n, c, index);
    NodeCount(d.nodes);
    NodeCount(next.nodes);
    OneMore(d.nodes.Keys, n.id);
    assert |next.nodes| == |next.nodes.Keys| && |d.nodes| == |d.nodes.Keys|;
    ValidIs(next, limits);
    MostIs(Height(Shape(d.nodes)), Level(Shape(d.nodes), c) + 2);
  }

  lemma OneMore(s: set<Id>, x: Id)
    requires x !in s
    ensures |s + {x}| == |s| + 1
  {
  }

  lemma LeafText(d: Document, n: Node, c: Id, index: Option<int>)
    requires c in d.nodes && n.id !in d.nodes && n.text == ""
    ensures TextBytes(WithLeaf(d, n, c, index).nodes) == TextBytes(d.nodes)
    ensures WithLeaf(d, n, c, index).totalTextBytes == d.totalTextBytes
  {
    TextUpdated(d.nodes, n.id, n);
    TextUpdated(d.nodes[n.id := n], c, d.nodes[c].(children := InsertChild(d.nodes[c].children, n.id, index)));
    hide TextBytes;
    hide InsertChild;
  }

  lemma FreshIs(d: Document, op: Operation, props: Props, force: bool, limits: Limits)
    requires op.id !in d.nodes && Container(op) in d.nodes && d.nodes[Container(op)].kind.Container()
    requires TableLimits(op.kind, props, limits).None?
    ensures var r, c := UpsertFresh(d, op, props, force, limits), Container(op);
      && r.Applied? && r.eff.changed
      && r.doc == WithLeaf(d, NewNode(op.id, op.kind, c, props, Marks(ExplicitKeys(op.props))), c, op.index)
  {
    hide TableLimits;
    hide InsertChild;
    hide Marks;
    hide ExplicitKeys;
  }

  lemma LeafFields(op: Operation, c: Id, props: Props)
    ensures var n := NewNode(op.id, op.kind, c, props, Marks(ExplicitKeys(op.props)));
      n.id == op.id && n.kind == op.kind && n.parent == c && n.children == [] && n.text == ""
  {
    hide Marks;
    hide ExplicitKeys;
  }

  /**
   A valid upsert of a new node under an existing container, within the table limits, is accepted exactly
   when one more node, one more level below its container, one more child there, and the bytes of the node
   and of its identifier, stored twice, are within the limits.
   */
  lemma CreationAccepted(d: Document, op: Operation, limits: Limits)
    requires Sound(d, limits) && ReadyToMove(d.nodes)
    requires op.op == OpUpsert && op.id !in d.nodes && op.id != ROOT && ValidateOperation(op, limits).None?
    requires Container(op) in d.nodes && d.nodes[Container(op)].kind.Container()
    requires TableLimits(op.kind, NormalizeProps(op.kind, op.props, true).props, limits).None?
    ensures IsTree(d.nodes) && Container(op) in Labels(Shape(d.nodes))
    ensures NormalizeProps(op.kind, op.props, true).Accepted?
    ensures var c, props := Container(op), NormalizeProps(op.kind, op.props, true).props;
      var n := NewNode(op.id, op.kind, c, props, Marks(ExplicitKeys(op.props)));
      var r := Apply(d, op, limits);
      && (r.Applied? <==>
            && |d.nodes| < limits.maxNodes
            && Level(Shape(d.nodes), c) + 1 <= limits.maxDepth
            && |d.nodes[c].children| < limits.maxChildren
            && DocumentBytes(d.nodes) + NodeBytes(n) + 2 * |op.id| <= limits.maxDocumentBytes)
      && (!r.Applied? ==> r == OverLimits)
  {
    hide *;
    SoundReady(d, limits);
    ReadyTree(d.nodes);
    UpsertSchema(op, limits);
    UpsertDrafts(d, op, limits);
    ApplyCases(d, op, limits);
    UpsertKind(op, limits);
    var a, c := NormalizeProps(op.kind, op.props, true), Container(op);
    FreshIs(d, op, a.props, a.force, limits);
    LeafFields(op, c, a.props);
    LeafValid(d, NewNode(op.id, op.kind, c, a.props, Marks(ExplicitKeys(op.props))), c, op.index, limits);
  }

  lemma UpsertKind(op: Operation, limits: Limits)
    requires op.op == OpUpsert && ValidateOperation(op, limits).None?
    ensures op.kind.Valid()
  {
    hide NormalizeProps;
  }

  // ---- new content ----

  /** With other content at one node only the bytes of the document and the text total can break a limit. */
  lemma ContentValid(d: Document, x: Id, m: Node, limits: Limits)
    requires Valid(d, limits) && x in d.nodes && SameLinks(d.nodes[x], m)
    requires NodeOk(m) && (x == ROOT ==> m.kind == Box) && m.text == d.nodes[x].text
    ensures Valid(d.(nodes := d.nodes[x := m]), limits) <==>
      DocumentBytes(d.nodes) + NodeBytes(m) - NodeBytes(d.nodes[x]) <= limits.maxDocumentBytes
  {
    hide *;
    WellFormedTree(d, limits);
    BytesAt(d.nodes, x, m);
    TextUpdated(d.nodes, x, m);
    LinksSame(d.nodes[x], m);
    ContentChanged(d.nodes, x, m);
    SameWidths(d.nodes, x, m, limits);
    ValidIs(d, limits);
    ValidIs(d.(nodes := d.nodes[x := m]), limits);
  }

  lemma LinksSame(n: Node, m: Node)
    requires SameLinks(n, m)
    ensures m.children == n.children
  {
  }

  /**
   A valid patch that the schema accepts and the table limits allow is refused for its size exactly when
   the bytes of the changed node do not fit the document; a patch that changes nothing never is.
   */
  lemma PatchAccepted(d: Document, op: Operation, limits: Limits)
    requires Sound(d, limits) && ReadyToMove(d.nodes) && op.op == OpProps && ValidateOperation(op, limits).None?
    requires op.id in d.nodes && op.id != ROOT
    ensures var n := d.nodes[op.id];
      var a, r := MergeNormalized(n.kind, n.props, op.props), Apply(d, op, limits);
      && n.explicit.Some?
      && (a.Rejected? ==> r.Failed?)
      && (a.Accepted? ==>
            var m := n.(props := a.props, explicit := Some(n.explicit.value + Marks(ExplicitKeys(op.props))));
            if m == n then r.Applied? && r.doc == d
            else if TableLimits(n.kind, a.props, limits).Some? then r.Failed?
            else if DocumentBytes(d.nodes) + NodeBytes(m) - NodeBytes(n) <= limits.maxDocumentBytes
            then r.Applied? && r.doc == d.(revision := d.revision + 1, nodes := d.nodes[op.id := m])
            else r == OverLimits)
  {
    hide *;
    SoundReady(d, limits);
    IntactKept(d, limits);
    KeptAt(d.nodes, op.id, limits);
    HasMarkers(op.id, d.nodes[op.id], limits);
    ApplyCases(d, op, limits);
    PatchDraft(d, op, limits);
    PatchCases(d, op, limits);
    var n := d.nodes[op.id];
    var a := MergeNormalized(n.kind, n.props, op.props);
    if a.Accepted? {
      var m := n.(props := a.props, explicit := Some(n.explicit.value + Marks(ExplicitKeys(op.props))));
      ReadyTree(d.nodes);
      OkAt(d.nodes, op.id);
      SameShape(n, m);
      ContentValid(d, op.id, m, limits);
    }
  }

  lemma HasMarkers(x: Id, n: Node, limits: Limits)
    requires NodeKept(x, n, limits) && x != ROOT
    ensures n.explicit.Some?
  {
    hide ValidNormalized;
    hide TableLimits;
  }

  lemma SameShape(n: Node, m: Node)
    requires NodeOk(n) && m == n.(props := m.props, explicit := m.explicit)
    ensures SameLinks(n, m) && NodeOk(m)
  {
  }

  lemma PatchCases(d: Document, op: Operation, limits: Limits)
    requires op.id in d.nodes && d.nodes[op.id].explicit.Some?
    ensures var n, r := d.nodes[op.id], PatchProps(d, op, limits);
      var a := MergeNormalized(n.kind, n.props, op.props);
      && (a.Rejected? ==> r.Failed?)
      && (a.Accepted? ==>
            var m := n.(props := a.props, explicit := Some(n.explicit.value + Marks(ExplicitKeys(op.props))));
            if m == n then r.Applied? && !r.eff.changed && r.doc == d
            else if TableLimits(n.kind, a.props, limits).Some? then r.Failed?
            else r.Applied? && r.eff.changed && r.doc == d.(nodes := d.nodes[op.id := m]))
  {
    hide MergeNormalized;
    hide TableLimits;
    hide Marks;
    hide ExplicitKeys;
  }
}

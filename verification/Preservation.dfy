/**
 No helper of the reducer can break the document: whatever it returns without error is again a
 rooted tree with a true text total and bounded nodes, so the validator that follows can only
 object to a resource limit.
 */
module Preservation {
  import opened Forests
  import opened Protocol
  import opened Documents
  import opened Sums
  import opened Reducer
  import opened TreeSteps

  /** Everything but the limits of the validator. */
  ghost predicate Intact(d: Document, limits: Limits) {
    WellFormed(d) && Kept(d.nodes, limits)
  }

  lemma NormalizedValid(t: NodeType, raw: PropsArg)
    requires NormalizeProps(t, raw, true).Accepted?
    ensures t.Valid() && ValidNormalized(t, NormalizeProps(t, raw, true).props)
  {
  }

  lemma MergedValid(t: NodeType, current: Props, raw: PropsArg)
    requires MergeNormalized(t, current, raw).Accepted?
    ensures ValidNormalized(t, MergeNormalized(t, current, raw).props)
  {
  }

  lemma KeptUpdate(nodes: Nodes, x: Id, n: Node, limits: Limits)
    requires Kept(nodes, limits) && NodeKept(x, n, limits)
    ensures Kept(nodes[x := n], limits)
  {
    hide NodeKept;
  }

  lemma KeptSame(nodes: Nodes, nodes': Nodes, limits: Limits)
    requires Kept(nodes, limits) && nodes'.Keys <= nodes.Keys
    requires forall x :: x in nodes' ==>
      && nodes'[x].kind == nodes[x].kind && nodes'[x].props == nodes[x].props
      && nodes'[x].explicit == nodes[x].explicit && nodes'[x].text == nodes[x].text
    ensures Kept(nodes', limits)
  {
    hide ValidNormalized;
    hide TableLimits;
  }

  lemma ReadyFromIntact(d: Document, limits: Limits)
    requires Intact(d, limits)
    ensures ReadyToMove(d.nodes)
  {
    hide ValidNormalized;
  }

  lemma ReadyTree(nodes: Nodes)
    requires ReadyToMove(nodes)
    ensures IsTree(nodes) && NO_PARENT !in nodes
  {
    hide IsTree;
  }

  // ---- the helpers, one by one ----

  lemma FreshIntact(d: Document, op: Operation, props: Props, force: bool, limits: Limits)
    requires Intact(d, limits) && op.id !in d.nodes && op.id != NO_PARENT
    requires op.kind.Valid() && ValidNormalized(op.kind, props)
    requires 0 <= limits.maxTextBytesPerNode
    ensures var r := UpsertFresh(d, op, props, force, limits); r.Applied? ==> Intact(r.doc, limits)
  {
    hide ValidNormalized;
    hide IsTree;
    hide Kept;
    var r := UpsertFresh(d, op, props, force, limits);
    if r.Applied? {
      RootStored(d.nodes);
      var parent := if op.parent == "" then ROOT else op.parent;
      var n := NewNode(op.id, op.kind, parent, props, Marks(ExplicitKeys(op.props)));
      var p := d.nodes[parent].(children := InsertChild(d.nodes[parent].children, op.id, op.index));
      assert r.doc.nodes == d.nodes[op.id := n][parent := p] && r.doc.totalTextBytes == TextBytes(d.nodes);
      assert NodeKept(op.id, n, limits);
      KeptAt(d.nodes, parent, limits);
      assert NodeKept(parent, p, limits);
      hide *;
      FreshLeaf(d.nodes, parent, n, op.index);
      TextUpdated(d.nodes, op.id, n);
      TextUpdated(d.nodes[op.id := n], parent, p);
      KeptUpdate(d.nodes, op.id, n, limits);
      KeptUpdate(d.nodes[op.id := n], parent, p, limits);
      IntactFrom(r.doc, limits);
    }
  }

  lemma IntactFrom(d: Document, limits: Limits)
    requires IsTree(d.nodes) && d.totalTextBytes == TextBytes(d.nodes) && Kept(d.nodes, limits)
    ensures Intact(d, limits)
  {
  }

  lemma RootStored(nodes: Nodes)
    requires IsTree(nodes)
    ensures ROOT in nodes
  {
  }

  lemma KeptAt(nodes: Nodes, x: Id, limits: Limits)
    requires Kept(nodes, limits) && x in nodes
    ensures NodeKept(x, nodes[x], limits)
  {
    hide NodeKept;
  }

  /** Rewriting a node's own fields after an optional move. */
  lemma RewriteIntact(d: Document, moved: Nodes, x: Id, n: Node, limits: Limits)
    requires IsTree(moved) && Kept(moved, limits) && d.totalTextBytes == TextBytes(moved)
    requires x in moved && x != ROOT && SameLinks(moved[x], n) && NodeOk(n) && NodeKept(x, n, limits)
    ensures Intact(d.(nodes := moved[x := n],
                      totalTextBytes := d.totalTextBytes + |n.text| - |moved[x].text|), limits)
    ensures Shape(moved[x := n]) == Shape(moved)
  {
    ContentChanged(moved, x, n);
    TextUpdated(moved, x, n);
    KeptUpdate(moved, x, n, limits);
  }

  lemma MoveContent(nodes: Nodes, x: Id, p: Id, index: Option<int>)
    requires x in nodes && x != p && nodes[x].id == x && Without(nodes[x].children, x) == nodes[x].children
    ensures var nodes' := MoveNode(nodes, x, p, index);
      && nodes'.Keys == nodes.Keys && nodes'[x].children == nodes[x].children
      && forall y :: y in nodes ==>
           && nodes'[y].kind == nodes[y].kind && nodes'[y].props == nodes[y].props
           && nodes'[y].explicit == nodes[y].explicit && nodes'[y].text == nodes[y].text
  {
  }

  lemma CutContent(nodes: Nodes, x: Id, gone: set<Id>)
    requires x in nodes
    ensures var nodes' := CutNodes(nodes, x, gone);
      && nodes'.Keys <= nodes.Keys
      && forall y :: y in nodes' ==>
           && nodes'[y].kind == nodes[y].kind && nodes'[y].props == nodes[y].props
           && nodes'[y].explicit == nodes[y].explicit && nodes'[y].text == nodes[y].text
  {
  }

  lemma MoveIntact(nodes: Nodes, x: Id, p: Id, index: Option<int>, limits: Limits)
    requires IsTree(nodes) && Kept(nodes, limits) && x in nodes && x != ROOT
    requires p in nodes && p !in Subtree(Shape(nodes), x) && nodes[p].kind.Container()
    ensures var nodes' := MoveNode(nodes, x, p, index);
      IsTree(nodes') && Kept(nodes', limits) && TextBytes(nodes') == TextBytes(nodes)
    ensures NodeOk(nodes[x]) && MoveNode(nodes, x, p, index)[x].children == nodes[x].children
  {
    Moved(nodes, x, p, index);
    WithoutSubtree(nodes, Shape(nodes), x);
    StoredIds(nodes);
    MoveContent(nodes, x, p, index);
    assert p != x && NodeOk(nodes[x]);
    hide *;
    TextUnchanged(nodes, MoveNode(nodes, x, p, index));
    KeptSame(nodes, MoveNode(nodes, x, p, index), limits);
  }

  lemma ExistingIntact(d: Document, op: Operation, props: Props, force: bool, limits: Limits)
    requires Intact(d, limits) && ReadyToMove(d.nodes) && op.id in d.nodes && op.id != ROOT
    requires op.kind.Valid() && ValidNormalized(op.kind, props)
    requires 0 <= limits.maxTextBytesPerNode
    ensures var r := UpsertExisting(d, op, props, force, limits);
      r.Applied? ==> Intact(r.doc, limits) && (!r.eff.changed ==> r.doc == d)
  {
    hide *;
    ExistingIs(d, op, props, force, limits);
    IntactParts(d, limits);
    var r := UpsertExisting(d, op, props, force, limits);
    if r.Applied? {
      var n := d.nodes[op.id];
      var target := TargetParent(n, op);
      var topology := target != n.parent || op.index.Some?;
      var moved := if topology then MoveNode(d.nodes, op.id, target, op.index) else d.nodes;
      if topology { MoveIntact(d.nodes, op.id, target, op.index, limits); }
      KeptAt(d.nodes, op.id, limits);
      OkAt(d.nodes, op.id);
      RewrittenOk(moved[op.id], n, op, props, limits);
      RewriteIntact(d, moved, op.id, Rewritten(moved[op.id], op, props), limits);
    }
  }

  lemma IntactParts(d: Document, limits: Limits)
    requires Intact(d, limits)
    ensures IsTree(d.nodes) && Kept(d.nodes, limits) && d.totalTextBytes == TextBytes(d.nodes)
  {
    hide IsTree;
    hide Kept;
  }

  lemma OkAt(nodes: Nodes, x: Id)
    requires IsTree(nodes) && x in nodes
    ensures NodeOk(nodes[x])
  {
    hide NodeOk;
  }

  /** What an accepted upsert of a stored node has passed, and what it wrote. */
  lemma ExistingIs(d: Document, op: Operation, props: Props, force: bool, limits: Limits)
    requires ReadyToMove(d.nodes) && op.id in d.nodes && op.id != ROOT
    ensures IsTree(d.nodes)
    ensures var r := UpsertExisting(d, op, props, force, limits);
      r.Applied? ==>
        var n := d.nodes[op.id];
        var target := TargetParent(n, op);
        var topology := target != n.parent || op.index.Some?;
        var moved := if topology then MoveNode(d.nodes, op.id, target, op.index) else d.nodes;
        && (topology ==>
              target in d.nodes && target !in Subtree(Shape(d.nodes), op.id) && d.nodes[target].kind.Container())
        && (n.kind == op.kind || n.children == [] || op.kind.Container())
        && op.id in moved && SameRewrite(moved[op.id], n)
        && var m := Rewritten(moved[op.id], op, props);
           && TableLimits(op.kind, props, limits).None?
           && r.doc == d.(nodes := moved[op.id := m], totalTextBytes := d.totalTextBytes + |m.text| - |n.text|)
           && (!r.eff.changed ==> r.doc == d)
  {
    hide Shape;
    hide Subtree;
    hide TableLimits;
    hide ExplicitKeys;
    var n := d.nodes[op.id];
    var target := TargetParent(n, op);
    if target in d.nodes && target !in Subtree(Shape(d.nodes), op.id) {
      MoveRewrite(d.nodes, op.id, target, op.index);
    }
    hide IsTree;
    hide MoveNode;
    hide Marks;
  }

  lemma MoveRewrite(nodes: Nodes, x: Id, p: Id, index: Option<int>)
    requires IsTree(nodes) && x in nodes && x != ROOT && p in nodes && p !in Subtree(Shape(nodes), x)
    ensures var moved := MoveNode(nodes, x, p, index); x in moved && SameRewrite(moved[x], nodes[x])
  {
    WithoutSubtree(nodes, Shape(nodes), x);
    StoredIds(nodes);
    assert x in Subtree(Shape(nodes), x);
    MoveContent(nodes, x, p, index);
    hide *;
    RewriteSame(MoveNode(nodes, x, p, index)[x], nodes[x]);
  }

  lemma RewriteSame(m: Node, n: Node)
    requires m.children == n.children && m.kind == n.kind && m.text == n.text
    ensures SameRewrite(m, n)
  {
  }

  lemma RewrittenOk(stored: Node, n: Node, op: Operation, props: Props, limits: Limits)
    requires SameRewrite(stored, n) && NodeOk(n) && NodeKept(op.id, n, limits)
    requires n.kind == op.kind || n.children == [] || op.kind.Container()
    requires op.kind.Valid() && ValidNormalized(op.kind, props) && TableLimits(op.kind, props, limits).None?
    requires 0 <= limits.maxTextBytesPerNode && op.id != ROOT
    ensures var m := Rewritten(stored, op, props);
      NodeOk(m) && NodeKept(op.id, m, limits) && SameLinks(stored, m) && |stored.text| == |n.text|
  {
    hide ValidNormalized;
    hide TableLimits;
  }

  predicate SameRewrite(m: Node, n: Node) {
    m.children == n.children && m.kind == n.kind && m.text == n.text
  }

  lemma PatchIntact(d: Document, op: Operation, limits: Limits)
    requires Intact(d, limits)
    ensures var r := PatchProps(d, op, limits);
      r.Applied? ==> Intact(r.doc, limits) && (!r.eff.changed ==> r.doc == d)
  {
    hide ValidNormalized;
    var r := PatchProps(d, op, limits);
    if r.Applied? && r.eff.changed {
      var n := d.nodes[op.id];
      MergedValid(n.kind, n.props, op.props);
      hide MergeNormalized;
      var m := r.doc.nodes[op.id];
      KeptAt(d.nodes, op.id, limits);
      ContentChanged(d.nodes, op.id, m);
      TextUpdated(d.nodes, op.id, m);
      KeptUpdate(d.nodes, op.id, m, limits);
    }
  }

  lemma TextIntact(d: Document, op: Operation, limits: Limits)
    requires Intact(d, limits)
    ensures var r := AppendText(d, op, limits);
      r.Applied? ==> Intact(r.doc, limits) && (!r.eff.changed ==> r.doc == d)
  {
    hide ValidNormalized;
    var r := AppendText(d, op, limits);
    if r.Applied? && r.eff.changed {
      var m := r.doc.nodes[op.id];
      KeptAt(d.nodes, op.id, limits);
      ContentChanged(d.nodes, op.id, m);
      TextUpdated(d.nodes, op.id, m);
      KeptUpdate(d.nodes, op.id, m, limits);
    }
  }

  lemma RemoveIntact(d: Document, id: Id, limits: Limits)
    requires Intact(d, limits)
    ensures var r := Remove(d, id); r.Applied? ==> Intact(r.doc, limits)
  {
    hide NodeKept;
    hide NodeOk;
    hide Encodes;
    if id != ROOT && id in d.nodes {
      var gone := Subtree(Shape(d.nodes), id);
      var cut := CutNodes(d.nodes, id, gone);
      KidsAreLabels(Shape(d.nodes), id);
      CutKept(d.nodes, id, gone, limits);
      Removed(d.nodes, id);
      TextRemoved(d.nodes, id, gone);
      IntactFrom(Remove(d, id).doc, limits);
    }
  }

  lemma CutKept(nodes: Nodes, id: Id, gone: set<Id>, limits: Limits)
    requires Kept(nodes, limits) && id in nodes
    ensures Kept(CutNodes(nodes, id, gone), limits)
  {
    CutContent(nodes, id, gone);
    KeptSame(nodes, CutNodes(nodes, id, gone), limits);
  }

  /** Any helper's result is intact; a result that reports no change is the document itself. */
  lemma DraftIntact(d: Document, op: Operation, limits: Limits)
    requires Intact(d, limits) && ReadyToMove(d.nodes) && ValidateOperation(op, limits).None?
    requires 0 <= limits.maxTextBytesPerNode
    ensures var r := Draft(d, op, limits);
      r.Applied? ==> Intact(r.doc, limits) && (!r.eff.changed ==> r.doc == d)
  {
    hide ValidNormalized;
    hide PatchProps;
    hide AppendText;
    hide Remove;
    hide UpsertFresh;
    hide UpsertExisting;
    match op.op {
      case OpUpsert =>
        if op.id != ROOT && NormalizeProps(op.kind, op.props, true).Accepted? {
          NormalizedValid(op.kind, op.props);
          var a := NormalizeProps(op.kind, op.props, true);
          hide NormalizeProps;
          if op.id in d.nodes {
            ExistingIntact(d, op, a.props, a.force, limits);
          } else {
            FreshIntact(d, op, a.props, a.force, limits);
            FreshChanges(d, op, a.props, a.force, limits);
          }
        }
      case OpProps => PatchIntact(d, op, limits);
      case OpText => TextIntact(d, op, limits);
      case OpRemove => RemoveIntact(d, op.id, limits); RemoveChanges(d, op.id);
      case OpFocus =>
      case OpCommit =>
      case OpOther =>
    }
  }

  lemma FreshChanges(d: Document, op: Operation, props: Props, force: bool, limits: Limits)
    requires op.id !in d.nodes
    ensures var r := UpsertFresh(d, op, props, force, limits); r.Applied? ==> r.eff.changed
  {
  }

  lemma RemoveChanges(d: Document, id: Id)
    requires IsTree(d.nodes)
    ensures var r := Remove(d, id); r.Applied? ==> r.eff.changed
  {
  }

  /** The transaction around the helpers. */
  lemma ApplyCases(d: Document, op: Operation, limits: Limits)
    requires ReadyToMove(d.nodes) && ValidateOperation(op, limits).None?
    ensures var draft, r := Draft(d, op, limits), Apply(d, op, limits);
      && (draft.Applied? && draft.eff.changed && Valid(draft.doc, limits)
          ==> r == Applied(draft.doc.(revision := d.revision + 1), draft.eff))
      && (draft.Applied? && draft.eff.changed && !Valid(draft.doc, limits) ==> r == OverLimits)
      && (!draft.Applied? || !draft.eff.changed ==> r == draft)
      && draft != OverLimits
  {
    hide ValidateOperation;
    hide NormalizeProps;
    hide MergeNormalized;
    hide MoveNode;
    hide Valid;
    hide IsTree;
  }

  lemma SoundIntact(d: Document, limits: Limits)
    ensures Sound(d, limits) <==> Intact(d, limits) && Valid(d, limits)
    ensures Intact(d, limits) ==> WellFormed(d)
  {
  }
}

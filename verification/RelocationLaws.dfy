/** Relocation as an operation: when it is accepted, how it is undone, and what the engine keeps. */
module RelocationLaws {
  import opened Forests
  import opened Protocol
  import opened Documents
  import opened Reducer
  import opened TreeSteps
  import opened Preservation
  import opened DocumentLaws
  import opened UpsertLaws
  import opened RelocationLimits
  import opened Projections
  import opened ProjectionLaws
  import opened Engines

  /** An acceptable upsert that keeps the type and the content of a stored node. */
  ghost predicate Relocates(d: Document, op: Operation, limits: Limits) {
    && op.op == OpUpsert && op.id != ROOT && ValidateOperation(op, limits).None?
    && NormalizeProps(op.kind, op.props, true).Accepted?
    && SameContentUpsert(d, op, NormalizeProps(op.kind, op.props, true).props)
  }

  /** It names a parent other than the current one, or an index. */
  predicate Asked(d: Document, op: Operation)
    requires op.id in d.nodes
  {
    TargetParent(d.nodes[op.id], op) != d.nodes[op.id].parent || op.index.Some?
  }

  /** The target is an existing container outside the moved subtree. */
  ghost predicate GoodTarget(d: Document, op: Operation)
    requires IsTree(d.nodes) && op.id in d.nodes
  {
    var target := TargetParent(d.nodes[op.id], op);
    target in d.nodes && target !in Subtree(Shape(d.nodes), op.id) && d.nodes[target].kind.Container()
  }

  function Relocated(d: Document, op: Operation): Nodes
    requires op.id in d.nodes
  {
    if Asked(d, op) then MoveNode(d.nodes, op.id, TargetParent(d.nodes[op.id], op), op.index) else d.nodes
  }

  // ---- acceptance ----

  lemma RelocatesParts(d: Document, op: Operation, limits: Limits)
    requires Relocates(d, op, limits)
    ensures op.op == OpUpsert && op.id != ROOT && ValidateOperation(op, limits).None? && op.id in d.nodes
    ensures NormalizeProps(op.kind, op.props, true).Accepted?
    ensures SameContentUpsert(d, op, NormalizeProps(op.kind, op.props, true).props)
  {
    hide ValidateOperation;
    hide NormalizeProps;
    hide ExplicitKeys;
    hide Marks;
  }

  /** The helper's part: refused, or nothing but the move. */
  lemma RelocationDraft(d: Document, op: Operation, limits: Limits)
    requires Intact(d, limits) && ReadyToMove(d.nodes) && IsTree(d.nodes)
    requires Relocates(d, op, limits) && op.id in d.nodes
    ensures var r := Draft(d, op, limits);
      if Asked(d, op) && !GoodTarget(d, op) then r.Failed?
      else
        && r.Applied? && r.doc == d.(nodes := Relocated(d, op))
        && r.eff ==
             Effect(Relocated(d, op) != d.nodes, false, [], false, NormalizeProps(op.kind, op.props, true).force)
  {
    RelocatesParts(d, op, limits);
    hide *;
    var a := NormalizeProps(op.kind, op.props, true);
    RelocationExactly(d, op, a.props, a.force, limits);
    UpsertDraft(d, op, limits);
    ExistingEffect(d, op, a.props, a.force, limits);
    RelocationTerms(d, op);
  }

  lemma UpsertDraft(d: Document, op: Operation, limits: Limits)
    requires ReadyToMove(d.nodes) && op.op == OpUpsert && op.id != ROOT && op.id in d.nodes
    requires NormalizeProps(op.kind, op.props, true).Accepted?
    ensures var a := NormalizeProps(op.kind, op.props, true);
      Draft(d, op, limits) == UpsertExisting(d, op, a.props, a.force, limits)
  {
    hide NormalizeProps;
    hide UpsertExisting;
    hide ReadyToMove;
  }

  lemma ExistingEffect(d: Document, op: Operation, props: Props, force: bool, limits: Limits)
    requires ReadyToMove(d.nodes) && op.id in d.nodes && op.id != ROOT
    ensures var r := UpsertExisting(d, op, props, force, limits);
      && (r.Applied? ==>
            r.eff == Effect(r.doc.nodes != d.nodes, false, [], d.nodes[op.id].kind != op.kind, force))
      && (!r.Applied? ==> r.Failed?)
  {
    hide IsTree;
    hide Subtree;
    hide TableLimits;
    hide MoveNode;
    hide Rewritten;
  }

  lemma RelocationTerms(d: Document, op: Operation)
    requires IsTree(d.nodes) && op.id in d.nodes
    ensures var target := TargetParent(d.nodes[op.id], op);
      && (Asked(d, op) <==> target != d.nodes[op.id].parent || op.index.Some?)
      && (GoodTarget(d, op) <==>
            target in d.nodes && target !in Subtree(Shape(d.nodes), op.id) && d.nodes[target].kind.Container())
      && Relocated(d, op) == if Asked(d, op) then MoveNode(d.nodes, op.id, target, op.index) else d.nodes
  {
    hide IsTree;
    hide Subtree;
    hide MoveNode;
  }

  /** The transaction accepts the helper's result exactly when it is valid. */
  lemma RelocationOutcome(d: Document, op: Operation, limits: Limits)
    requires Sound(d, limits) && 0 <= limits.maxTextBytesPerNode && Relocates(d, op, limits)
    ensures ReadyToMove(d.nodes) && IsTree(d.nodes) && op.id in d.nodes
    ensures var r := Apply(d, op, limits);
      var moved := d.(revision := d.revision + 1, nodes := Relocated(d, op));
      var eff := Effect(false, false, [], false, NormalizeProps(op.kind, op.props, true).force);
      if Asked(d, op) && !GoodTarget(d, op) then r.Failed?
      else if moved.nodes == d.nodes then r == Applied(d, eff)
      else if Valid(moved, limits) then r == Applied(moved, eff.(changed := true))
      else r == OverLimits
  {
    SoundReady(d, limits);
    RelocatesParts(d, op, limits);
    ReadyTree(d.nodes);
    hide *;
    RelocationDraft(d, op, limits);
    Preservation.ApplyCases(d, op, limits);
    var r := Draft(d, op, limits);
    if r.Applied? {
      RevisionIrrelevant(r.doc, r.doc.(revision := d.revision + 1), limits);
      RevisionIrrelevant(r.doc.(revision := d.revision + 1), r.doc, limits);
    }
  }

  /**
   The transaction accepts the relocation exactly when no move is asked for, or the target is good and
   is the present parent or has room; the document is then the old one with the move, or the old one
   itself. A reordering under the same parent can break no limit at all.
   */
  lemma RelocationAccepted(d: Document, op: Operation, limits: Limits)
    requires Sound(d, limits) && 0 <= limits.maxTextBytesPerNode && Relocates(d, op, limits)
    ensures ReadyToMove(d.nodes) && IsTree(d.nodes) && op.id in d.nodes
    ensures var r, target := Apply(d, op, limits), TargetParent(d.nodes[op.id], op);
      var eff := Effect(false, false, [], false, NormalizeProps(op.kind, op.props, true).force);
      if Asked(d, op) && !GoodTarget(d, op) then r.Failed?
      else if Relocated(d, op) == d.nodes then r == Applied(d, eff)
      else if target == d.nodes[op.id].parent || (target in d.nodes && Room(d, op.id, target, limits)) then
        r == Applied(d.(revision := d.revision + 1, nodes := Relocated(d, op)), eff.(changed := true))
      else r == OverLimits
  {
    hide *;
    RelocationOutcome(d, op, limits);
    SoundReady(d, limits);
    RelocatesParts(d, op, limits);
    RelocationTerms(d, op);
    if Asked(d, op) && GoodTarget(d, op) {
      var moved := d.(nodes := Relocated(d, op));
      MoveLimits(d, op.id, TargetParent(d.nodes[op.id], op), op.index, limits);
      RevisionIrrelevant(moved, moved.(revision := d.revision + 1), limits);
      RevisionIrrelevant(moved.(revision := d.revision + 1), moved, limits);
    }
  }

  // ---- reversal ----

  /** Back to the old parent, at the old place among its children. */
  function Reverse(d: Document, op: Operation): Operation
    requires op.id in d.nodes && d.nodes[op.id].parent in d.nodes && op.id in d.nodes[d.nodes[op.id].parent].children
  {
    var from := d.nodes[op.id].parent;
    op.(parent := from, index := Some(IndexIn(d.nodes[from].children, op.id)))
  }

  /** The subtree of a moved node moves with it. */
  lemma SubtreeMoved(nodes: Nodes, x: Id, p: Id, index: Option<int>)
    requires IsTree(nodes) && x in nodes && x != ROOT && p in nodes && p !in Subtree(Shape(nodes), x)
    requires nodes[p].kind.Container()
    ensures var moved := MoveNode(nodes, x, p, index);
      IsTree(moved) && x in Labels(Shape(moved)) && Subtree(Shape(moved), x) == Subtree(Shape(nodes), x)
  {
    Moved(nodes, x, p, index);
    var moved := MoveNode(nodes, x, p, index);
    var f, f' := Shape(nodes), Shape(moved);
    var kids, kids' := KidsOf(f, x), KidsOf(f', x);
    EncodesAt(nodes, f, NO_PARENT, x);
    EncodesAt(moved, f', NO_PARENT, x);
    StoredIds(nodes);
    WithoutSubtree(nodes, f, x);
    KidsAreLabels(f, x);
    OutsideItself(nodes, x, p);
    assert forall y :: y in Subtree(f, x) ==> y in nodes && Without(nodes[y].children, x) == nodes[y].children;
    hide *;
    KidsKeepLinks(nodes, x, p, index, kids);
    SubtreeIs(f, x);
    SubtreeIs(f', x);
    EncodesFrame(nodes, moved, kids, x);
    EncodesUnique(moved, kids, kids', x, x);
  }

  lemma SubtreeIs(f: Forest, x: Id)
    requires x in Labels(f)
    ensures Subtree(f, x) == {x} + Labels(KidsOf(f, x))
  {
  }

  lemma KidsKeepLinks(nodes: Nodes, x: Id, p: Id, index: Option<int>, kids: Forest)
    requires x in nodes && x != p && p !in Labels(kids) && x !in Labels(kids) && Labels(kids) <= nodes.Keys
    requires forall y :: y in nodes ==> nodes[y].id == y
    requires forall y :: y in Labels(kids) + {x} ==> Without(nodes[y].children, x) == nodes[y].children
    ensures var moved := MoveNode(nodes, x, p, index);
      && moved[x].children == nodes[x].children
      && forall y :: y in Labels(kids) ==>
           && y in moved && moved[y].id == nodes[y].id && moved[y].parent == nodes[y].parent
           && moved[y].children == nodes[y].children
  {
    hide Without;
    hide InsertChild;
    hide Labels;
  }

  /** A parent is not below its child. */
  lemma ParentOutside(nodes: Nodes, x: Id)
    requires IsTree(nodes) && x in nodes && x != ROOT
    ensures nodes[x].parent in nodes && nodes[x].parent !in Subtree(Shape(nodes), x)
    ensures nodes[nodes[x].parent].kind.Container()
  {
    ParentStored(nodes, x);
    var f, from := Shape(nodes), nodes[x].parent;
    EncodesAt(nodes, f, NO_PARENT, x);
    if from in Subtree(f, x) { SubtreeLevels(f, x, from); }
    assert NodeOk(nodes[from]);
    assert Roots(f) == [ROOT];
  }

  lemma MovedFields(nodes: Nodes, x: Id, p: Id, index: Option<int>)
    requires x in nodes && x != p && nodes[x].id == x && Without(nodes[x].children, x) == nodes[x].children
    ensures var moved := MoveNode(nodes, x, p, index);
      && moved.Keys == nodes.Keys && SameContent(nodes, moved) && moved[x].explicit == nodes[x].explicit
      && moved[x].parent == p
  {
    MoveContent(nodes, x, p, index);
    hide Without;
  }

  /** What the relocated document has in common with the old one. */
  lemma RelocatedFacts(d: Document, op: Operation)
    requires IsTree(d.nodes) && op.id in d.nodes && op.id != ROOT && (Asked(d, op) ==> GoodTarget(d, op))
    ensures var moved := Relocated(d, op);
      && IsTree(moved) && SameContent(d.nodes, moved) && op.id in moved
      && moved[op.id].explicit == d.nodes[op.id].explicit
      && op.id in Labels(Shape(moved)) && Subtree(Shape(moved), op.id) == Subtree(Shape(d.nodes), op.id)
  {
    var x, target := op.id, TargetParent(d.nodes[op.id], op);
    RelocationTerms(d, op);
    StoredIds(d.nodes);
    WithoutSubtree(d.nodes, Shape(d.nodes), x);
    assert x in Subtree(Shape(d.nodes), x);
    SameItself(d.nodes);
    hide *;
    if Asked(d, op) {
      OutsideItself(d.nodes, x, target);
      SubtreeMoved(d.nodes, x, target, op.index);
      MovedFields(d.nodes, x, target, op.index);
      SameContentIs(d.nodes, Relocated(d, op));
    }
  }

  lemma SameItself(nodes: Nodes)
    ensures SameContent(nodes, nodes)
  {
  }

  /** Moving back restores the map, whether or not the first operation moved anything. */
  lemma RestoresNodes(d: Document, op: Operation, once: Document)
    requires IsTree(d.nodes) && op.id in d.nodes && op.id != ROOT && (Asked(d, op) ==> GoodTarget(d, op))
    requires once.nodes == Relocated(d, op) && op.id in once.nodes && d.nodes[op.id].parent != ""
    ensures d.nodes[op.id].parent in d.nodes && op.id in d.nodes[d.nodes[op.id].parent].children
    ensures op.id in once.nodes && Asked(once, Reverse(d, op))
    ensures Relocated(once, Reverse(d, op)) == d.nodes
  {
    var x, from := op.id, d.nodes[op.id].parent;
    ParentStored(d.nodes, x);
    RelocationTerms(d, op);
    ReverseTerms(d, op, once);
    ParentOutside(d.nodes, x);
    EncodesAt(d.nodes, Shape(d.nodes), NO_PARENT, from);
    KidsAreLabels(Shape(d.nodes), from);
    RootsDistinct(KidsOf(Shape(d.nodes), from));
    var s, k := d.nodes[from].children, IndexIn(d.nodes[from].children, x);
    hide *;
    if Asked(d, op) {
      MoveUndone(d.nodes, x, TargetParent(d.nodes[x], op), op.index);
    } else {
      ReinsertAtIndex(s, x);
      WithoutFacts(s, x);
      ReinsertChild(s, x);
      MoveAgain(d.nodes, x, Some(k), Without(s, x));
    }
  }

  lemma ReinsertChild(s: seq<Id>, x: Id)
    requires x in s && IndexIn(s, x) <= |Without(s, x)| && InsertAt(Without(s, x), IndexIn(s, x), x) == s
    ensures InsertChild(Without(s, x), x, Some(IndexIn(s, x))) == s
  {
    hide Without;
    hide InsertAt;
  }

  lemma ReverseTerms(d: Document, op: Operation, once: Document)
    requires op.id in d.nodes && d.nodes[op.id].parent in d.nodes && d.nodes[op.id].parent != ""
    requires op.id in d.nodes[d.nodes[op.id].parent].children && op.id in once.nodes
    ensures var from, back := d.nodes[op.id].parent, Reverse(d, op);
      && Asked(once, back) && TargetParent(once.nodes[op.id], back) == from
      && Relocated(once, back) == MoveNode(once.nodes, op.id, from, Some(IndexIn(d.nodes[from].children, op.id)))
  {
    hide MoveNode;
  }

  lemma ReverseRelocates(d: Document, op: Operation, once: Document, limits: Limits)
    requires Relocates(d, op, limits) && op.id in d.nodes && d.nodes[op.id].parent in d.nodes
    requires op.id in d.nodes[d.nodes[op.id].parent].children
    requires op.id in once.nodes && SameContent(d.nodes, once.nodes)
    requires once.nodes[op.id].explicit == d.nodes[op.id].explicit
    ensures Relocates(once, Reverse(d, op), limits)
  {
    hide NormalizeProps;
    hide ExplicitKeys;
    hide Marks;
  }

  /**
   A relocation that was accepted can be reversed: the upsert back to the old parent and place is
   always accepted, and restores every node and the text total, two revisions later if the first one
   changed anything.
   */
  lemma RelocationReversed(d: Document, op: Operation, limits: Limits)
    requires Sound(d, limits) && 0 <= limits.maxTextBytesPerNode && Relocates(d, op, limits)
    requires ReadyToMove(d.nodes) && Apply(d, op, limits).Applied?
    ensures op.id in d.nodes && d.nodes[op.id].parent in d.nodes && op.id in d.nodes[d.nodes[op.id].parent].children
    ensures var once := Apply(d, op, limits).doc;
      && ReadyToMove(once.nodes)
      && var back := Apply(once, Reverse(d, op), limits);
         && back.Applied? && back.doc.nodes == d.nodes && back.doc.totalTextBytes == d.totalTextBytes
         && back.doc.revision == d.revision + if once.nodes == d.nodes then 0 else 2
  {
    hide *;
    ReadyTree(d.nodes);
    RelocatesParts(d, op, limits);
    RelocationOutcome(d, op, limits);
    ApplySound(d, op, limits);
    var once := Apply(d, op, limits).doc;
    SoundReady(d, limits);
    SoundReady(once, limits);
    RelocatedFacts(d, op);
    ParentOutside(d.nodes, op.id);
    ParentStored(d.nodes, op.id);
    NamedParent(d.nodes, op.id);
    RestoresNodes(d, op, once);
    ReverseRelocates(d, op, once, limits);
    SameContentIs(d.nodes, once.nodes);
    var back := Reverse(d, op);
    BackTarget(d, op, once);
    RelocationOutcome(once, back, limits);
    RevisionIrrelevant(d, d.(revision := once.revision + 1), limits);
  }

  lemma NamedParent(nodes: Nodes, x: Id)
    requires ReadyToMove(nodes) && x in nodes && x != ROOT && nodes[x].parent in nodes
    ensures nodes[x].parent != ""
  {
    hide IsTree;
  }

  lemma BackTarget(d: Document, op: Operation, once: Document)
    requires IsTree(once.nodes) && op.id in d.nodes && op.id in once.nodes && d.nodes[op.id].parent in d.nodes
    requires op.id in d.nodes[d.nodes[op.id].parent].children && d.nodes[op.id].parent != ""
    requires IsTree(d.nodes) && Subtree(Shape(once.nodes), op.id) == Subtree(Shape(d.nodes), op.id)
    requires d.nodes[op.id].parent !in Subtree(Shape(d.nodes), op.id)
    requires d.nodes[op.id].parent in once.nodes && once.nodes[d.nodes[op.id].parent].kind.Container()
    ensures Reverse(d, op).id == op.id && GoodTarget(once, Reverse(d, op))
  {
    hide IsTree;
    hide Subtree;
  }

  // ---- the engine ----

  /**
   In the engine an accepted relocation is never refused by reconciliation: focus, selections and
   bindings stay, and so do all input values, but for the moved input itself if the operation forces
   its default.
   */
  lemma RelocationKeepsProjection(e: EngineState, op: Operation, over: Code)
    requires EngineOk(e) && Relocates(e.doc, op, e.limits) && ReadyToMove(e.doc.nodes)
    requires Apply(e.doc, op, e.limits).Applied?
    ensures op.id in e.doc.nodes
    ensures var (after, reply) := ApplyOp(e, op, over);
      && reply == Fine && after.doc == Apply(e.doc, op, e.limits).doc && after.doc.nodes == Relocated(e.doc, op)
      && after.pending == e.pending && after.broker == e.broker
      && after.state.focusedId == e.state.focusedId && after.state.selections == e.state.selections
      && after.state.bindings == e.state.bindings
      && after.state.inputs ==
           ForcedInputs(e.state, after.doc.nodes, op, Apply(e.doc, op, e.limits).eff)
  {
    hide *;
    AllOk(e);
    OkDocument(e.doc, e.state, e.limits);
    SoundReady(e.doc, e.limits);
    RelocatesParts(e.doc, op, e.limits);
    RelocationOutcome(e.doc, op, e.limits);
    RelocatedFacts(e.doc, op);
    Engines.ApplyCases(e, op, over);
    var r := Apply(e.doc, op, e.limits);
    SameContentReconciled(e.state, e.doc, r.doc, op, r.eff, e.limits);
    InstallCases(e, op, r.doc, r.eff);
    AdvancedAll(e, r.doc, Reconcile(e.state, e.doc, r.doc, op, r.eff).state, r.eff, Commit(Max0(op.opSeq), op.frame));
  }

  lemma AdvancedAll(e: EngineState, next: Document, s: Projection, eff: Effect, c: Commit)
    requires !eff.commit
    ensures var after := Advanced(e, next, s, eff, c);
      after.state == s && after.doc == next && after.pending == e.pending && after.broker == e.broker
  {
  }
}

/** Relocation and its inverse, idempotence of upsert, and creation undone by removal. */
module UpsertLaws {
  import opened Forests
  import opened Protocol
  import opened Documents
  import opened Sums
  import opened Reducer
  import opened TreeSteps
  import opened Preservation
  import opened RemovalLaws
  import opened DocumentLaws

  // ---- child lists ----

  lemma {:induction false} WithoutInserted(s: seq<Id>, i: nat, x: Id)
    requires i <= |s| && x !in s
    ensures Without(InsertAt(s, i, x), x) == s
    decreases i
  {
    var t := InsertAt(s, i, x);
    if i == 0 {
      assert t[1..] == s;
      WithoutFacts(s, x);
    } else {
      assert t[0] == s[0] && t[1..] == InsertAt(s[1..], i - 1, x);
      WithoutInserted(s[1..], i - 1, x);
    }
  }

  lemma {:induction false} ReinsertAtIndex(s: seq<Id>, x: Id)
    requires NoRepeats(s) && x in s
    ensures IndexIn(s, x) <= |Without(s, x)| && InsertAt(Without(s, x), IndexIn(s, x), x) == s
    decreases s
  {
    hide *;
    WithoutCons(s, x);
    IndexCons(s, x);
    TailUnique(s);
    WithoutFacts(s[1..], x);
    if s[0] == x {
      InsertFirst(s[1..], x);
      assert s == [x] + s[1..];
    } else {
      ReinsertAtIndex(s[1..], x);
      InsertLater(s[0], Without(s[1..], x), IndexIn(s[1..], x), x);
      assert s == [s[0]] + s[1..];
    }
  }

  lemma IndexCons(s: seq<Id>, x: Id)
    requires x in s
    ensures s[0] == x ==> IndexIn(s, x) == 0
    ensures s[0] != x ==> x in s[1..] && IndexIn(s, x) == 1 + IndexIn(s[1..], x)
  {
  }

  lemma InsertFirst(s: seq<Id>, x: Id)
    ensures InsertAt(s, 0, x) == [x] + s
  {
  }

  lemma InsertLater(first: Id, r: seq<Id>, i: nat, x: Id)
    requires i <= |r|
    ensures InsertAt([first] + r, 1 + i, x) == [first] + InsertAt(r, i, x)
  {
    assert ([first] + r)[..1 + i] == [first] + r[..i] && ([first] + r)[1 + i..] == r[i..];
    assert ([first] + r[..i]) + [x] + r[i..] == [first] + (r[..i] + [x] + r[i..]);
  }

  // ---- relocation ----

  /** An upsert that keeps the type and the content of the node. */
  ghost predicate SameContentUpsert(d: Document, op: Operation, props: Props) {
    && op.id in d.nodes && op.kind == d.nodes[op.id].kind && props == d.nodes[op.id].props
    && d.nodes[op.id].explicit == Some(Marks(ExplicitKeys(op.props)))
  }

  /**
   Such an upsert goes through exactly when no move is asked for, or the target is an existing
   container outside the moved subtree; and then it is nothing but the move.
   */
  lemma RelocationExactly(d: Document, op: Operation, props: Props, force: bool, limits: Limits)
    requires Intact(d, limits) && ReadyToMove(d.nodes) && op.id != ROOT && SameContentUpsert(d, op, props)
    ensures var target := TargetParent(d.nodes[op.id], op);
      var asked := target != d.nodes[op.id].parent || op.index.Some?;
      var r := UpsertExisting(d, op, props, force, limits);
      && (r.Applied? <==>
            (asked ==>
              target in d.nodes && target !in Subtree(Shape(d.nodes), op.id) && d.nodes[target].kind.Container()))
      && (r.Applied? ==>
            && !r.eff.typeChanged && r.eff.removed == []
            && r.doc == d.(nodes := if asked then MoveNode(d.nodes, op.id, target, op.index) else d.nodes))
  {
    KeptAt(d.nodes, op.id, limits);
    StoredIds(d.nodes);
    var n := d.nodes[op.id];
    assert TableLimits(n.kind, n.props, limits).None? && NodeOk(n);
    hide IsTree;
    hide Kept;
    hide NodeKept;
    hide NodeOk;
    hide Marks;
    hide ExplicitKeys;
    hide TableLimits;
    var target := TargetParent(n, op);
    if target in d.nodes && target !in Subtree(Shape(d.nodes), op.id) && d.nodes[target].kind.Container() {
      MoveIntact(d.nodes, op.id, target, op.index, limits);
      var moved := MoveNode(d.nodes, op.id, target, op.index);
      assert Rewritten(moved[op.id], op, props) == moved[op.id];
      hide MoveNode;
      SelfUpdate(moved, op.id);
    }
    assert Rewritten(n, op, props) == n;
    SelfUpdate(d.nodes, op.id);
  }

  lemma SelfUpdate(nodes: Nodes, x: Id)
    requires x in nodes
    ensures nodes[x := nodes[x]] == nodes
  {
  }

  /** Only the moved node's parent field and two child lists change; other siblings keep their order. */
  lemma MoveFrame(nodes: Nodes, x: Id, p: Id, index: Option<int>)
    requires IsTree(nodes) && x in nodes && x != ROOT && p in nodes && p !in Subtree(Shape(nodes), x)
    ensures var nodes' := MoveNode(nodes, x, p, index);
      && nodes'.Keys == nodes.Keys
      && nodes'[x] == nodes[x].(parent := p)
      && (forall y :: y in nodes && y !in {x, p, nodes[x].parent} ==> nodes'[y] == nodes[y])
      && Without(nodes'[p].children, x) == Without(nodes[p].children, x)
      && x in nodes'[p].children
      && (p != nodes[x].parent ==>
            nodes[x].parent in nodes'
            && nodes'[nodes[x].parent].children == Without(nodes[nodes[x].parent].children, x))
  {
    hide *;
    StoredIds(nodes);
    ParentStored(nodes, x);
    forall y | y in nodes && y != nodes[x].parent ensures Without(nodes[y].children, x) == nodes[y].children {
      OnlyParentLists(nodes, x, y);
    }
    OutsideItself(nodes, x, p);
    MoveLinks(nodes, x, p, index);
  }

  lemma OutsideItself(nodes: Nodes, x: Id, p: Id)
    requires IsTree(nodes) && x in nodes && x != ROOT && p !in Subtree(Shape(nodes), x)
    ensures p != x && nodes[x].parent != x
  {
    ParentStored(nodes, x);
    WithoutSubtree(nodes, Shape(nodes), x);
    assert x in Subtree(Shape(nodes), x);
    hide IsTree;
    WithoutFacts(nodes[x].children, x);
  }

  lemma MoveLinks(nodes: Nodes, x: Id, p: Id, index: Option<int>)
    requires x in nodes && p in nodes && p != x && nodes[x].parent in nodes && nodes[x].parent != x
    requires forall y :: y in nodes ==> nodes[y].id == y
    requires forall y :: y in nodes && y != nodes[x].parent ==> Without(nodes[y].children, x) == nodes[y].children
    ensures var nodes' := MoveNode(nodes, x, p, index);
      && nodes'.Keys == nodes.Keys
      && nodes'[x] == nodes[x].(parent := p)
      && (forall y :: y in nodes && y !in {x, p, nodes[x].parent} ==> nodes'[y] == nodes[y])
      && Without(nodes'[p].children, x) == Without(nodes[p].children, x)
      && x in nodes'[p].children
      && (p != nodes[x].parent ==>
            nodes'[nodes[x].parent].children == Without(nodes[nodes[x].parent].children, x))
  {
    hide *;
    MoveAt(nodes, x, p, index, x);
    forall y | y in nodes ensures MoveNode(nodes, x, p, index)[y] == Relinked(nodes[y], x, p, index) {
      MoveAt(nodes, x, p, index, y);
    }
    forall y | y in nodes && y !in {x, p, nodes[x].parent}
      ensures Relinked(nodes[y], x, p, index) == nodes[y]
    {
      RelinkedOther(nodes[y], x, p, index);
    }
    RelinkedMoved(nodes[x], p, index);
    RelinkedTarget(nodes[p], x, index);
    if p != nodes[x].parent { RelinkedFrom(nodes[nodes[x].parent], x, p, index); }
  }

  lemma MoveAt(nodes: Nodes, x: Id, p: Id, index: Option<int>, y: Id)
    requires y in nodes
    ensures MoveNode(nodes, x, p, index).Keys == nodes.Keys
    ensures MoveNode(nodes, x, p, index)[y] == Relinked(nodes[y], x, p, index)
  {
    hide Relinked;
  }

  lemma RelinkedOther(n: Node, x: Id, p: Id, index: Option<int>)
    requires n.id != x && n.id != p && Without(n.children, x) == n.children
    ensures Relinked(n, x, p, index) == n
  {
    hide Without;
  }

  lemma RelinkedMoved(n: Node, p: Id, index: Option<int>)
    requires n.id != p && Without(n.children, n.id) == n.children
    ensures Relinked(n, n.id, p, index) == n.(parent := p)
  {
    hide Without;
  }

  lemma RelinkedFrom(n: Node, x: Id, p: Id, index: Option<int>)
    requires n.id != p
    ensures Relinked(n, x, p, index).children == Without(n.children, x)
  {
    hide Without;
  }

  lemma RelinkedTarget(n: Node, x: Id, index: Option<int>)
    requires n.id != x
    ensures var m := Relinked(n, x, n.id, index);
      Without(m.children, x) == Without(n.children, x) && x in m.children
  {
    var rest := Without(n.children, x);
    WithoutFacts(n.children, x);
    WithoutInserted(rest, InsertIndex(|rest|, index), x);
    assert InsertChild(rest, x, index)[InsertIndex(|rest|, index)] == x;
    hide Without;
  }

  /** Moving back to the old parent at the old index restores the node map. */
  lemma MoveUndone(nodes: Nodes, x: Id, p: Id, index: Option<int>)
    requires IsTree(nodes) && x in nodes && x != ROOT && p in nodes && p !in Subtree(Shape(nodes), x)
    ensures nodes[x].parent in nodes && x in nodes[nodes[x].parent].children
    ensures var from := nodes[x].parent;
      MoveNode(MoveNode(nodes, x, p, index), x, from, Some(IndexIn(nodes[from].children, x))) == nodes
  {
    ParentStored(nodes, x);
    var from := nodes[x].parent;
    StoredIds(nodes);
    EncodesAt(nodes, Shape(nodes), NO_PARENT, from);
    KidsAreLabels(Shape(nodes), from);
    RootsDistinct(KidsOf(Shape(nodes), from));
    forall y | y in nodes && y != from ensures x !in nodes[y].children {
      OnlyParentLists(nodes, x, y);
      WithoutFacts(nodes[y].children, x);
    }
    hide *;
    MoveBack(nodes, x, p, index);
  }

  lemma MoveBack(nodes: Nodes, x: Id, p: Id, index: Option<int>)
    requires x in nodes && nodes[x].parent in nodes && x in nodes[nodes[x].parent].children
    requires NoRepeats(nodes[nodes[x].parent].children)
    requires forall y :: y in nodes ==> nodes[y].id == y
    requires forall y :: y in nodes && y != nodes[x].parent ==> x !in nodes[y].children
    ensures var from := nodes[x].parent;
      MoveNode(MoveNode(nodes, x, p, index), x, from, Some(IndexIn(nodes[from].children, x))) == nodes
  {
    var from := nodes[x].parent;
    var k := IndexIn(nodes[from].children, x);
    hide NoRepeats;
    hide Relinked;
    forall y | y in nodes ensures Relinked(Relinked(nodes[y], x, p, index), x, from, Some(k)) == nodes[y] {
      RelinkBack(nodes[y], x, p, index, from, k);
    }
  }

  lemma RelinkBack(n: Node, x: Id, p: Id, index: Option<int>, from: Id, k: nat)
    requires n.id == x ==> n.parent == from
    requires n.id != from ==> x !in n.children
    requires n.id == from ==> x in n.children && NoRepeats(n.children) && k == IndexIn(n.children, x)
    ensures Relinked(Relinked(n, x, p, index), x, from, Some(k)) == n
  {
    hide Without;
    var rest := Without(n.children, x);
    WithoutFacts(n.children, x);
    WithoutFacts(rest, x);
    WithoutInserted(rest, InsertIndex(|rest|, index), x);
    if n.id == from { ReinsertAtIndex(n.children, x); }
  }

  // ---- idempotence ----

  /** Where the list of the target is already an insertion at the asked index, moving again changes nothing. */
  lemma MoveAgain(nodes: Nodes, x: Id, index: Option<int>, rest: seq<Id>)
    requires IsTree(nodes) && x in nodes && x != ROOT && nodes[x].parent in nodes && x !in rest
    requires nodes[nodes[x].parent].children == InsertChild(rest, x, index)
    ensures MoveNode(nodes, x, nodes[x].parent, index) == nodes
  {
    StoredIds(nodes);
    WithoutInserted(rest, InsertIndex(|rest|, index), x);
    forall y | y in nodes && y != nodes[x].parent ensures Without(nodes[y].children, x) == nodes[y].children {
      OnlyParentLists(nodes, x, y);
    }
  }

  /** What an accepted upsert leaves behind: a second one finds nothing to do. */
  ghost predicate Settled(d: Document, op: Operation, props: Props) {
    && SameContentUpsert(d, op, props)
    && TargetParent(d.nodes[op.id], op) == d.nodes[op.id].parent
    && d.nodes[op.id].parent in d.nodes && d.nodes[d.nodes[op.id].parent].kind.Container()
    && (op.index.Some? ==> exists rest ::
          op.id !in rest && d.nodes[d.nodes[op.id].parent].children == InsertChild(rest, op.id, op.index))
  }

  lemma SettledUnchanged(d: Document, op: Operation, props: Props, force: bool, limits: Limits)
    requires Intact(d, limits) && ReadyToMove(d.nodes) && op.id != ROOT && Settled(d, op, props)
    ensures var r := UpsertExisting(d, op, props, force, limits); r.Applied? && r.doc == d && !r.eff.changed
  {
    RelocationExactly(d, op, props, force, limits);
    OnlyParentLists(d.nodes, op.id, op.id);
    if op.index.Some? {
      var rest :| op.id !in rest
        && d.nodes[d.nodes[op.id].parent].children == InsertChild(rest, op.id, op.index);
      MoveAgain(d.nodes, op.id, op.index, rest);
    }
    hide IsTree;
    hide Subtree;
    hide Kept;
  }

  lemma FreshSettles(d: Document, op: Operation, props: Props, force: bool, limits: Limits)
    requires Intact(d, limits) && ReadyToMove(d.nodes) && op.id != ROOT && op.id !in d.nodes
    ensures var r := UpsertFresh(d, op, props, force, limits); r.Applied? ==> Settled(r.doc, op, props)
  {
    hide ValidNormalized;
    hide Marks;
    hide ExplicitKeys;
    hide InsertChild;
    hide Kept;
    var r := UpsertFresh(d, op, props, force, limits);
    if r.Applied? {
      var parent := r.doc.nodes[op.id].parent;
      var rest := d.nodes[parent].children;
      if op.id in rest { ChildParent(d.nodes, Shape(d.nodes), NO_PARENT, parent, op.id); }
      assert r.doc.nodes[parent].children == InsertChild(rest, op.id, op.index);
    }
  }

  lemma ExistingSettles(d: Document, op: Operation, props: Props, force: bool, limits: Limits)
    requires Intact(d, limits) && ReadyToMove(d.nodes) && op.id != ROOT && op.id in d.nodes
    ensures var r := UpsertExisting(d, op, props, force, limits); r.Applied? ==> Settled(r.doc, op, props)
  {
    ParentStored(d.nodes, op.id);
    ParentContainer(d.nodes, op.id);
    OnlyParentLists(d.nodes, op.id, op.id);
    StoredIds(d.nodes);
    ExistingParts(d, op, props, force, limits);
    SelfOutside(d.nodes, op.id);
    var r := UpsertExisting(d, op, props, force, limits);
    var n := d.nodes[op.id];
    var target := TargetParent(n, op);
    if r.Applied? {
      if target != n.parent || op.index.Some? {
        MoveFrame(d.nodes, op.id, target, op.index);
        WithoutFacts(d.nodes[target].children, op.id);
        MovedList(d.nodes, op.id, target, op.index);
        assert target != op.id;
        hide *;
        var moved := MoveNode(d.nodes, op.id, target, op.index);
        SettledFrom(r.doc, moved, op, props, Without(d.nodes[target].children, op.id));
      } else {
        hide *;
        SettledFrom(r.doc, d.nodes, op, props, []);
      }
    }
  }

  lemma SelfOutside(nodes: Nodes, x: Id)
    requires IsTree(nodes) && x in nodes
    ensures x in Subtree(Shape(nodes), x)
  {
  }

  lemma ExistingParts(d: Document, op: Operation, props: Props, force: bool, limits: Limits)
    requires ReadyToMove(d.nodes) && op.id != ROOT && op.id in d.nodes
    ensures var r := UpsertExisting(d, op, props, force, limits);
      var n, target := d.nodes[op.id], TargetParent(d.nodes[op.id], op);
      var topology := target != n.parent || op.index.Some?;
      r.Applied? ==>
        && (topology ==>
              target in d.nodes && target !in Subtree(Shape(d.nodes), op.id) && d.nodes[target].kind.Container())
        && (op.parent != "" ==> target == op.parent) && (op.parent == "" ==> target == n.parent)
        && var moved := if topology then MoveNode(d.nodes, op.id, target, op.index) else d.nodes;
           op.id in moved && r.doc.nodes == moved[op.id := Rewritten(moved[op.id], op, props)]
  {
    hide Rewritten;
    hide Relinked;
    hide TableLimits;
    hide IsTree;
    hide Subtree;
  }

  lemma SettledFrom(d: Document, moved: Nodes, op: Operation, props: Props, rest: seq<Id>)
    requires op.id in moved && d.nodes == moved[op.id := Rewritten(moved[op.id], op, props)]
    requires moved[op.id].parent in moved && moved[op.id].parent != op.id
    requires moved[moved[op.id].parent].kind.Container()
    requires op.parent != "" ==> op.parent == moved[op.id].parent
    requires op.index.Some? ==>
      op.id !in rest && moved[moved[op.id].parent].children == InsertChild(rest, op.id, op.index)
    ensures Settled(d, op, props)
  {
    hide InsertChild;
    hide Marks;
    hide ExplicitKeys;
  }

  lemma MovedList(nodes: Nodes, x: Id, p: Id, index: Option<int>)
    requires p in nodes && nodes[p].id == p && x in nodes
    ensures var m := MoveNode(nodes, x, p, index);
      && m[p].children == InsertChild(Without(nodes[p].children, x), x, index) && m[p].kind == nodes[p].kind
  {
  }

  lemma ParentContainer(nodes: Nodes, x: Id)
    requires IsTree(nodes) && x in nodes && nodes[x].parent in nodes && x in nodes[nodes[x].parent].children
    ensures nodes[nodes[x].parent].kind.Container()
  {
    assert NodeOk(nodes[nodes[x].parent]);
  }

  lemma UpsertSettles(d: Document, op: Operation, limits: Limits)
    requires Intact(d, limits) && ReadyToMove(d.nodes) && op.op == OpUpsert
    requires Draft(d, op, limits).Applied?
    ensures op.id != ROOT && NormalizeProps(op.kind, op.props, true).Accepted?
    ensures Settled(Draft(d, op, limits).doc, op, NormalizeProps(op.kind, op.props, true).props)
  {
    hide NormalizeProps;
    hide Settled;
    hide UpsertExisting;
    hide UpsertFresh;
    var a := NormalizeProps(op.kind, op.props, true);
    if op.id != ROOT && a.Accepted? {
      if op.id in d.nodes {
        ExistingSettles(d, op, a.props, a.force, limits);
      } else {
        FreshSettles(d, op, a.props, a.force, limits);
      }
    }
  }

  lemma SettledDraft(d: Document, op: Operation, limits: Limits)
    requires Intact(d, limits) && ReadyToMove(d.nodes) && op.op == OpUpsert && op.id != ROOT
    requires NormalizeProps(op.kind, op.props, true).Accepted?
    requires Settled(d, op, NormalizeProps(op.kind, op.props, true).props)
    ensures var r := Draft(d, op, limits); r.Applied? && r.doc == d && !r.eff.changed
  {
    var a := NormalizeProps(op.kind, op.props, true);
    SettledUnchanged(d, op, a.props, a.force, limits);
    SettledStored(d, op, a.props);
    hide NormalizeProps;
    hide UpsertExisting;
    hide Settled;
    hide Intact;
    hide ReadyToMove;
  }

  lemma SettledStored(d: Document, op: Operation, props: Props)
    requires Settled(d, op, props)
    ensures op.id in d.nodes
  {
  }

  /** An accepted upsert is idempotent: applied again it is accepted, reports no change, and keeps the document. */
  lemma UpsertIdempotent(d: Document, op: Operation, limits: Limits)
    requires Sound(d, limits) && 0 <= limits.maxTextBytesPerNode && op.op == OpUpsert
    requires ReadyToMove(d.nodes) && Apply(d, op, limits).Applied?
    ensures var once := Apply(d, op, limits).doc;
      && ReadyToMove(once.nodes)
      && var again := Apply(once, op, limits);
         again.Applied? && again.doc == once && !again.eff.changed
  {
    SoundIntact(d, limits);
    hide *;
    if ValidateOperation(op, limits).Some? {
      InvalidRefused(d, op, limits);
    } else {
      ApplyCases(d, op, limits);
      DraftIntact(d, op, limits);
      UpsertSettles(d, op, limits);
      var draft, once := Draft(d, op, limits).doc, Apply(d, op, limits).doc;
      RevisionIrrelevant(draft, once, limits);
      ReadyFromIntact(once, limits);
      SettledNodes(draft, once, op, NormalizeProps(op.kind, op.props, true).props);
      SettledDraft(once, op, limits);
      ApplyCases(once, op, limits);
    }
  }

  lemma SettledNodes(d: Document, d': Document, op: Operation, props: Props)
    requires Settled(d, op, props) && d'.nodes == d.nodes
    ensures Settled(d', op, props)
  {
  }

  // ---- creation and removal ----

  lemma FreshSubtree(nodes: Nodes, x: Id)
    requires IsTree(nodes) && x in nodes && nodes[x].children == []
    ensures Subtree(Shape(nodes), x) == {x}
  {
    EncodesAt(nodes, Shape(nodes), NO_PARENT, x);
  }

  /** Cutting a leaf that was just inserted restores the map. */
  lemma CutFresh(d: Document, op: Operation, props: Props, force: bool, limits: Limits)
    requires Intact(d, limits) && ReadyToMove(d.nodes) && op.id !in d.nodes
    requires UpsertFresh(d, op, props, force, limits).Applied?
    ensures var d1 := UpsertFresh(d, op, props, force, limits).doc;
      && op.id in d1.nodes && d1.nodes[op.id].children == [] && d1.nodes[op.id].text == ""
      && d1.totalTextBytes == d.totalTextBytes
      && CutNodes(d1.nodes, op.id, {op.id}) == d.nodes
  {
    hide ValidNormalized;
    hide Marks;
    hide ExplicitKeys;
    hide Kept;
    var d1 := UpsertFresh(d, op, props, force, limits).doc;
    var parent := d1.nodes[op.id].parent;
    var rest := d.nodes[parent].children;
    if op.id in rest { ChildParent(d.nodes, Shape(d.nodes), NO_PARENT, parent, op.id); }
    WithoutInserted(rest, InsertIndex(|rest|, op.index), op.id);
    hide IsTree;
    var cut := CutNodes(d1.nodes, op.id, {op.id});
    assert cut.Keys == d.nodes.Keys;
  }

  lemma FreshDraft(d: Document, op: Operation, limits: Limits)
    requires ReadyToMove(d.nodes) && op.op == OpUpsert && op.id !in d.nodes && Draft(d, op, limits).Applied?
    ensures op.id != ROOT
    ensures var a := NormalizeProps(op.kind, op.props, true);
      a.Accepted? && Draft(d, op, limits) == UpsertFresh(d, op, a.props, a.force, limits)
  {
    hide NormalizeProps;
    hide UpsertFresh;
  }

  /** Removing a leaf whose insertion is undone by the cut gives the old document back. */
  lemma LeafRemoved(d: Document, d1: Document, id: Id)
    requires IsTree(d1.nodes) && id in d1.nodes && id != ROOT
    requires d1.nodes[id].children == [] && d1.nodes[id].text == ""
    requires d1.totalTextBytes == d.totalTextBytes && CutNodes(d1.nodes, id, {id}) == d.nodes
    ensures Remove(d1, id).Applied? && Remove(d1, id).eff.changed
    ensures Remove(d1, id).doc == d1.(nodes := d.nodes, totalTextBytes := d.totalTextBytes)
  {
    FreshSubtree(d1.nodes, id);
    SumTake({id}, TextWeight(d1.nodes), id);
  }

  /**
   Creating a node and removing it again restores every node, every sibling order and the text
   total; the two changes cost two revisions.
   */
  lemma CreateThenRemove(d: Document, create: Operation, remove: Operation, limits: Limits)
    requires Sound(d, limits) && 0 <= limits.maxTextBytesPerNode && ReadyToMove(d.nodes)
    requires create.op == OpUpsert && create.id !in d.nodes && Apply(d, create, limits).Applied?
    requires remove.op == OpRemove && remove.id == create.id && ValidateOperation(remove, limits).None?
    ensures var d1 := Apply(d, create, limits).doc;
      && ReadyToMove(d1.nodes)
      && var r := Apply(d1, remove, limits);
         r.Applied? && r.doc == d.(revision := d.revision + 2)
  {
    SoundIntact(d, limits);
    ReadyRoot(d.nodes);
    hide *;
    if ValidateOperation(create, limits).Some? {
      InvalidRefused(d, create, limits);
    } else {
      ApplyCases(d, create, limits);
      ApplySound(d, create, limits);
      FreshDraft(d, create, limits);
      var a := NormalizeProps(create.kind, create.props, true);
      FreshChanges(d, create, a.props, a.force, limits);
      CutFresh(d, create, a.props, a.force, limits);
      var d1 := Apply(d, create, limits).doc;
      SoundIntact(d1, limits);
      IntactTree(d1, limits);
      ReadyFromIntact(d1, limits);
      LeafRemoved(d, d1, create.id);
      RemoveDraft(d1, remove, limits);
      RemovedValid(d1, create.id, limits);
      ApplyCases(d1, remove, limits);
      var gone := Remove(d1, create.id).doc;
      assert Apply(d1, remove, limits) == Applied(gone.(revision := d1.revision + 1), Remove(d1, create.id).eff);
      assert gone.nodes == d.nodes && gone.totalTextBytes == d.totalTextBytes && d1.revision == d.revision + 1;
      assert gone.(revision := d1.revision + 1) == d.(revision := d.revision + 2);
    }
  }

  lemma ReadyRoot(nodes: Nodes)
    requires ReadyToMove(nodes)
    ensures ROOT in nodes
  {
  }

  lemma IntactTree(d: Document, limits: Limits)
    requires Intact(d, limits)
    ensures IsTree(d.nodes)
  {
  }
}

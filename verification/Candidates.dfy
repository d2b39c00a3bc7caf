/**
 document/reducer.go as it runs: a candidate copy of the document is changed in place and either
 replaces the document or is dropped. Every method is proved against the functions of `Reducer`.
 */
module Candidates {
  import opened Sequences
  import opened Forests
  import opened Protocol
  import opened Documents
  import opened Sums
  import opened Reducer
  import opened TreeSteps
  import opened Preservation
  import opened Validator

  /** How a call ends; Panic is a write to a nil map. */
  datatype Verdict = Done | Refused(code: Code) | Panic

  ghost predicate Agrees(verdict: Verdict, doc: Document, eff: Effect, spec: Outcome) {
    match spec
    case Failed(code) => verdict == Refused(code)
    case OverLimits => verdict.Refused? && verdict.code.Resource()
    case Crashed => verdict == Panic
    case Applied(d, e) => verdict == Done && doc == d && eff == e
  }

  lemma AgreesDone(verdict: Verdict, doc: Document, eff: Effect, spec: Outcome)
    requires verdict == Done && spec == Applied(doc, eff)
    ensures Agrees(verdict, doc, eff, spec)
  {
  }

  // ---- child lists ----

  method RemoveChild(children: seq<Id>, id: Id) returns (out: seq<Id>)
    ensures out == Without(children, id)
  {
    out := [];
    for i := 0 to |children|
      invariant out + Without(children[i..], id) == Without(children, id)
    {
      var c := children[i];
      assert children[i..][0] == c && children[i..][1..] == children[i + 1..];
      var rest := Without(children[i + 1..], id);
      if c == id {
        ConcatNil(rest);
      } else {
        ConcatAssoc(out, [c], rest);
        out := out + [c];
      }
    }
  }

  /** One cell is appended, the tail shifted right, and the identifier written into the gap. */
  method InsertShifting(children: seq<Id>, id: Id, index: Option<int>) returns (out: seq<Id>)
    ensures out == InsertChild(children, id, index)
  {
    var idx := |children|;
    if index.Some? && index.value >= 0 && index.value < |children| { idx := index.value; }
    out := children + [""];
    var j := |children|;
    while j > idx
      invariant idx <= j <= |children| && |out| == |children| + 1
      invariant out[..j] == children[..j]
      invariant forall k :: j < k < |out| ==> out[k] == children[k - 1]
    {
      out := out[j := out[j - 1]];
      j := j - 1;
    }
    out := out[idx := id];
  }

  /** The first occurrence is overwritten by shifting the rest left. */
  method RemoveFirst(children: seq<Id>, id: Id) returns (out: seq<Id>)
    requires NoRepeats(children)
    ensures out == Without(children, id)
  {
    out := children;
    for i := 0 to |children|
      invariant out == children && id !in children[..i]
    {
      if children[i] == id {
        out := children[..i] + children[i + 1..];
        SplitWithout(children, i);
        return;
      }
    }
    assert children[..|children|] == children;
    WithoutFacts(children, id);
  }

  lemma {:induction false} SplitWithout(s: seq<Id>, i: nat)
    requires i < |s| && NoRepeats(s)
    ensures Without(s, s[i]) == s[..i] + s[i + 1..]
    decreases i
  {
    hide *;
    WithoutCons(s, s[i]);
    TailUnique(s);
    if i == 0 {
      WithoutFacts(s[1..], s[0]);
      assert s[..0] == [];
    } else {
      SplitWithout(s[1..], i - 1);
      assert s[1..][i - 1] == s[i] && s[1..][i..] == s[i + 1..] && s[..i] == [s[0]] + s[1..][..i - 1];
      OnceDiffers(s, i);
      ConcatAssoc([s[0]], s[1..][..i - 1], s[i + 1..]);
    }
    ConcatNil(s[1..]);
  }

  lemma OnceDiffers(s: seq<Id>, i: nat)
    requires NoRepeats(s) && 0 < i < |s|
    ensures s[0] != s[i]
  {
  }

  // ---- climbing ----

  /** A node is in a subtree exactly when it is its root or its parent is in it. */
  lemma SubtreeClimb(nodes: Nodes, x: Id, y: Id)
    requires IsTree(nodes) && x in nodes && y in nodes && y != x && y != ROOT
    ensures nodes[y].parent in nodes
    ensures y in Subtree(Shape(nodes), x) <==> nodes[y].parent in Subtree(Shape(nodes), x)
  {
    var f := Shape(nodes);
    var p := nodes[y].parent;
    ParentStored(nodes, y);
    EncodesAt(nodes, f, NO_PARENT, x);
    var k := KidsOf(f, x);
    KidsAreLabels(f, x);
    RootsAreLabels(k);
    if y in Labels(k) {
      EncodesAt(nodes, k, x, y);
    }
    if p == x {
    } else if p in Labels(k) {
      ChildParent(nodes, k, x, p, y);
    }
  }

  lemma ParentLevel(nodes: Nodes, y: Id)
    requires IsTree(nodes) && y in nodes
    ensures y == ROOT ==> nodes[y].parent == NO_PARENT
    ensures y != ROOT ==>
      nodes[y].parent in nodes && Level(Shape(nodes), nodes[y].parent) + 1 == Level(Shape(nodes), y)
  {
    var f := Shape(nodes);
    assert Roots(f) == [ROOT];
    EncodesAt(nodes, f, NO_PARENT, y);
  }

  lemma RootInSubtree(nodes: Nodes, x: Id)
    requires IsTree(nodes) && x in nodes && x != ROOT
    ensures ROOT !in Subtree(Shape(nodes), x)
  {
    var f := Shape(nodes);
    KidsAreLabels(f.kids, x);
  }

  class Candidate {
    var revision: nat
    var nodes: Nodes
    var totalTextBytes: int
    var eff: Effect

    function Doc(): Document
      reads this
    {
      Document(revision, nodes, totalTextBytes)
    }

    constructor (d: Document)
      ensures Doc() == d && eff == NO_EFFECT
    {
      revision, nodes, totalTextBytes, eff := d.revision, d.nodes, d.totalTextBytes, NO_EFFECT;
    }

    /** The parent chain of `target` meets `id` exactly when `target` lies in the subtree of `id`. */
    method WouldCreateCycle(id: Id, target: Id) returns (cycle: bool)
      requires ReadyToMove(nodes) && id in nodes && target in nodes
      ensures cycle <==> target in Subtree(Shape(nodes), id)
    {
      var current := target;
      while current != ""
        invariant current == "" || current in nodes
        invariant target in Subtree(Shape(nodes), id) <==>
          current in nodes && current in Subtree(Shape(nodes), id)
        decreases if current in nodes then Level(Shape(nodes), current) + 1 else 0
      {
        if current == id { return true; }
        if current !in nodes { return false; }
        ParentLevel(nodes, current);
        if current == ROOT { RootInSubtree(nodes, id); } else { SubtreeClimb(nodes, id, current); }
        current := nodes[current].parent;
      }
      return false;
    }
 
    /** The topology part of an upsert: the checks, then both child lists. */
    method Relocate(op: Operation, target: Id) returns (verdict: Verdict, changed: bool)
      requires ReadyToMove(nodes) && op.id in nodes && op.id != ROOT
      modifies this`nodes
      ensures target !in old(nodes) ==> verdict == Refused(ParentNotFound)
      ensures target in old(nodes) ==>
        var below := target in Subtree(Shape(old(nodes)), op.id);
        if below then verdict == Refused(Code.Cycle)
        else if !old(nodes)[target].kind.Container() then verdict == Refused(ParentNotContainer)
        else
          && verdict == Done && op.id in nodes && nodes[op.id] == old(nodes)[op.id]
          && nodes[op.id := nodes[op.id].(parent := target)] == MoveNode(old(nodes), op.id, target, op.index)
          && (changed <==> MoveNode(old(nodes), op.id, target, op.index) != old(nodes))
          && (!changed ==> nodes == old(nodes) && target == nodes[op.id].parent)
    {
      hide *;
      changed := false;
      if target !in nodes { return Refused(ParentNotFound), changed; }
      var cycle := WouldCreateCycle(op.id, target);
      if cycle { return Refused(Code.Cycle), changed; }
      if !nodes[target].kind.Container() { return Refused(ParentNotContainer), changed; }
      ReadyTree(nodes);
      MoveSteps(nodes, op.id, target, op.index);
      var from := nodes[op.id].parent;
      var out := RemoveChild(nodes[from].children, op.id);
      if target != from {
        var inserted := InsertShifting(nodes[target].children, op.id, op.index);
        nodes := nodes[from := nodes[from].(children := out)];
        nodes := nodes[target := nodes[target].(children := inserted)];
        changed := true;
      } else {
        var reordered := InsertShifting(out, op.id, op.index);
        if nodes[from].children != reordered {
          nodes := nodes[from := nodes[from].(children := reordered)];
          changed := true;
        }
      }
      verdict := Done;
    }

    /** The content part of an upsert: type, text, props and explicit markers of the node itself. */
    method Overwrite(stored: Node, op: Operation, props: Props, topologyChanged: bool, limits: Limits)
      returns (verdict: Verdict)
      modifies this`nodes, this`totalTextBytes, this`eff
      ensures var m := Rewritten(stored, op, props);
        if stored.kind != op.kind && stored.children != [] && !op.kind.Container()
        then verdict == Refused(ParentNotContainer)
        else if TableLimits(m.kind, m.props, limits).Some?
        then verdict == Refused(TableLimits(m.kind, m.props, limits).value)
        else
          var changed := topologyChanged || m != stored;
          && verdict == Done
          && nodes == (if changed then old(nodes)[op.id := m] else old(nodes))
          && totalTextBytes == old(totalTextBytes) - (if stored.kind != op.kind then |stored.text| else 0)
          && eff == old(eff).(changed := changed || old(eff).changed,
                              typeChanged := stored.kind != op.kind || old(eff).typeChanged)
    {
      hide TableLimits;
      hide ExplicitKeys;
      hide Marks;
      var n := stored;
      var typeChanged := n.kind != op.kind;
      if typeChanged {
        if |n.children| > 0 && !op.kind.Container() { return Refused(ParentNotContainer); }
        totalTextBytes := totalTextBytes - |n.text|;
        n := n.(kind := op.kind, text := "");
        eff := eff.(typeChanged := true);
      }
      var explicit := Some(Marks(ExplicitKeys(op.props)));
      var propsChanged := n.props != props;
      var explicitChanged := n.explicit != explicit;
      if propsChanged { n := n.(props := props); }
      if explicitChanged { n := n.(explicit := explicit); }
      var over := TableLimits(n.kind, n.props, limits);
      if over.Some? { return Refused(over.value); }
      if topologyChanged || typeChanged || propsChanged || explicitChanged {
        nodes := nodes[op.id := n];
        eff := eff.(changed := true);
      }
      verdict := Done;
    }

    /** The helper for a node that exists: relocation, reordering, retyping and full replacement. */
    method UpsertStored(op: Operation, props: Props, force: bool, limits: Limits) returns (verdict: Verdict)
      requires ReadyToMove(nodes) && op.id in nodes && op.id != ROOT && eff == NO_EFFECT
      modifies this
      ensures Agrees(verdict, Doc(), eff, UpsertExisting(old(Doc()), op, props, force, limits))
    {
      ghost var d := Doc();
      hide IsTree;
      hide ReadyToMove;
      hide Subtree;
      hide MoveNode;
      hide TableLimits;
      hide Rewritten;
      hide TargetParent;
      hide UpsertExisting;
      hide Agrees;
      eff := eff.(force := force);
      var n := nodes[op.id];
      var target := n.parent;
      if op.parent != "" { target := op.parent; }
      TargetIs(n, op, target);
      StoredRefused(d, op, props, force, limits, target);
      var topologyChanged := false;
      if target != n.parent || op.index.Some? {
        verdict, topologyChanged := Relocate(op, target);
        if verdict != Done { return; }
        n := n.(parent := target);
      }
      ghost var base := nodes;
      verdict := Overwrite(n, op, props, topologyChanged, limits);
      StoredAgrees(d, op, props, force, limits, target, base, n, topologyChanged, verdict, Doc(), eff);
    }

    /** The helper for a new node. */
    method UpsertNew(op: Operation, props: Props, force: bool, limits: Limits) returns (verdict: Verdict)
      requires op.id !in nodes && eff == NO_EFFECT
      modifies this
      ensures Agrees(verdict, Doc(), eff, UpsertFresh(old(Doc()), op, props, force, limits))
    {
      hide TableLimits;
      hide ExplicitKeys;
      hide Marks;
      eff := eff.(force := force);
      var parent := op.parent;
      if parent == "" { parent := ROOT; }
      if parent !in nodes { return Refused(ParentNotFound); }
      if !nodes[parent].kind.Container() { return Refused(ParentNotContainer); }
      var n := NewNode(op.id, op.kind, parent, props, Marks(ExplicitKeys(op.props)));
      nodes := nodes[op.id := n];
      var children := InsertShifting(nodes[parent].children, op.id, op.index);
      nodes := nodes[parent := nodes[parent].(children := children)];
      eff := eff.(changed := true);
      var over := TableLimits(n.kind, n.props, limits);
      if over.Some? { return Refused(over.value); }
      verdict := Done;
    }

    method ApplyUpsert(op: Operation, limits: Limits) returns (verdict: Verdict)
      requires ReadyToMove(nodes) && eff == NO_EFFECT
      modifies this
      ensures Agrees(verdict, Doc(), eff, Upsert(old(Doc()), op, limits))
    {
      hide NormalizeProps;
      hide UpsertExisting;
      hide UpsertFresh;
      if op.id == ROOT { return Refused(RootImmutable); }
      var normalized := NormalizeProps(op.kind, op.props, true);
      match normalized
      case Rejected(code) => return Refused(code);
      case Accepted(props, force) =>
        if op.id in nodes {
          verdict := UpsertStored(op, props, force, limits);
        } else {
          verdict := UpsertNew(op, props, force, limits);
        }
    }

    method ApplyProps(op: Operation, limits: Limits) returns (verdict: Verdict)
      requires eff == NO_EFFECT
      modifies this
      ensures Agrees(verdict, Doc(), eff, PatchProps(old(Doc()), op, limits))
    {
      hide MergeNormalized;
      hide TableLimits;
      if op.id !in nodes { return Refused(NodeNotFound); }
      var n := nodes[op.id];
      var merged := MergeNormalized(n.kind, n.props, op.props);
      if merged.Rejected? { return Refused(merged.code); }
      eff := eff.(force := merged.force);
      var explicit := n.explicit;
      var keys := ExplicitKeys(op.props);
      while keys != {}
        invariant keys <= ExplicitKeys(op.props)
        invariant n.explicit.None? ==> keys == ExplicitKeys(op.props) && explicit.None?
        invariant n.explicit.Some? ==>
          explicit.Some? && explicit.value == n.explicit.value + Marks(ExplicitKeys(op.props) - keys)
      {
        var key :| key in keys;
        if explicit.None? { return Panic; }
        explicit := Some(explicit.value[key := true]);
        assert ExplicitKeys(op.props) - (keys - {key}) == ExplicitKeys(op.props) - keys + {key};
        keys := keys - {key};
      }
      assert ExplicitKeys(op.props) - {} == ExplicitKeys(op.props);
      if n.props == merged.props && n.explicit == explicit { return Done; }
      n := n.(props := merged.props, explicit := explicit);
      var over := TableLimits(n.kind, n.props, limits);
      if over.Some? { return Refused(over.value); }
      nodes := nodes[op.id := n];
      eff := eff.(changed := true);
      verdict := Done;
    }

    method ApplyText(op: Operation, limits: Limits) returns (verdict: Verdict)
      requires eff == NO_EFFECT
      modifies this
      ensures Agrees(verdict, Doc(), eff, AppendText(old(Doc()), op, limits))
    {
      if op.id !in nodes { return Refused(NodeNotFound); }
      var n := nodes[op.id];
      if n.kind != Text && n.kind != Viewport { return Refused(TextUnsupported); }
      if op.text == "" { return Done; }
      if |n.text| + |op.text| > limits.maxTextBytesPerNode { return Refused(TextTooLarge); }
      if totalTextBytes + |op.text| > limits.maxTotalTextBytes { return Refused(TextTooLarge); }
      n := n.(text := n.text + op.text);
      totalTextBytes := totalTextBytes + |op.text|;
      nodes := nodes[op.id := n];
      eff := eff.(changed := true);
      verdict := Done;
    }

    /** Children are swept before their parent; exactly the subtree goes, in postorder. */
    method Sweep(id: Id, ghost kids: Forest, ghost parent: Id)
      requires Encodes(nodes, Cons(id, kids, Nil), parent) && Distinct(Cons(id, kids, Nil))
      modifies this`nodes, this`totalTextBytes, this`eff
      ensures var gone := {id} + Labels(kids);
        && nodes == old(nodes) - gone
        && totalTextBytes == old(totalTextBytes) - Sum(gone, TextWeight(old(nodes)))
        && eff == old(eff).(removed := old(eff).removed + Postorder(kids) + [id])
      decreases kids
    {
      var n := nodes[id];
      ghost var left, done, listed := kids, {}, [];
      SweepStart(nodes, id, kids, parent);
      hide *;
      for i := 0 to |n.children|
        invariant Sweeping(old(nodes), nodes, id, kids, left, done, listed, n.children[i..])
        invariant totalTextBytes == old(totalTextBytes) - Sum(done, TextWeight(old(nodes)))
        invariant eff == old(eff).(removed := old(eff).removed + listed)
      {
        assert n.children[i..] == [n.children[i]] + n.children[i + 1..];
        SweepNext(old(nodes), nodes, id, kids, left, done, listed, n.children[i], n.children[i + 1..]);
        Sweep(n.children[i], left.kids, id);
        ConcatAssoc(old(eff).removed, listed, Postorder(left.kids));
        ConcatAssoc(old(eff).removed, listed + Postorder(left.kids), [n.children[i]]);
        listed := listed + Postorder(left.kids) + [n.children[i]];
        done := done + ({n.children[i]} + Labels(left.kids));
        left := left.rest;
      }
      assert n.children[|n.children|..] == [];
      SweepEnd(old(nodes), nodes, id, kids, left, done, listed);
      totalTextBytes := totalTextBytes - |n.text|;
      nodes := nodes - {id};
      eff := eff.(removed := eff.removed + [id]);
    }

    method ApplyRemove(op: Operation) returns (verdict: Verdict)
      requires IsTree(nodes) && eff == NO_EFFECT
      modifies this
      ensures Agrees(verdict, Doc(), eff, Remove(old(Doc()), op.id))
    {
      if op.id == ROOT { return Refused(RootImmutable); }
      if op.id !in nodes { return Refused(NodeNotFound); }
      ghost var kids := KidsOf(Shape(nodes), op.id);
      var n := nodes[op.id];
      RemoveReady(nodes, op.id);
      ghost var spec := Remove(Doc(), op.id);
      assert spec.doc.nodes == CutNodes(nodes, op.id, {op.id} + Labels(kids));
      assert spec.doc.totalTextBytes == totalTextBytes - Sum({op.id} + Labels(kids), TextWeight(nodes));
      assert spec.eff == eff.(changed := true, removed := Postorder(kids) + [op.id]);
      ConcatNil(Postorder(kids));
      hide Remove;
      hide IsTree;
      hide Shape;
      hide CutNodes;
      hide Encodes;
      hide Distinct;
      hide Labels;
      hide Postorder;
      hide NoRepeats;
      hide Without;
      hide Sum;
      var p := nodes[n.parent];
      var children := RemoveFirst(p.children, op.id);
      nodes := nodes[n.parent := p.(children := children)];
      Sweep(op.id, kids, n.parent);
      eff := eff.(changed := true);
      verdict := Done;
      AgreesDone(verdict, Doc(), eff, spec);
    }

    method ApplyOperation(op: Operation, limits: Limits) returns (verdict: Verdict)
      requires ReadyToMove(nodes) && eff == NO_EFFECT && !op.op.OpCommit? && !op.op.OpOther?
      modifies this
      ensures Agrees(verdict, Doc(), eff, Draft(old(Doc()), op, limits))
    {
      hide Upsert;
      hide PatchProps;
      hide AppendText;
      hide Remove;
      match op.op
      case OpUpsert => verdict := ApplyUpsert(op, limits);
      case OpProps => verdict := ApplyProps(op, limits);
      case OpText => verdict := ApplyText(op, limits);
      case OpRemove => verdict := ApplyRemove(op);
      case OpFocus => verdict := if op.id in nodes then Done else Refused(NodeNotFound);
    }
  }

  /** The list updates of a move, written out. */
  /** The code's writes, one after the other; the parent field of `x` is written later. */
  lemma MoveSteps(nodes: Nodes, x: Id, p: Id, index: Option<int>)
    requires IsTree(nodes) && x in nodes && x != ROOT && p in nodes && p !in Subtree(Shape(nodes), x)
    ensures nodes[x].parent in nodes
    ensures var from, moved := nodes[x].parent, MoveNode(nodes, x, p, index);
      var out := nodes[from := nodes[from].(children := Without(nodes[from].children, x))];
      var list := InsertChild(if p == from then out[p].children else nodes[p].children, x, index);
      var after := (if p == from then nodes else out)[p := nodes[p].(children := list)];
      && x in after && after[x] == nodes[x] && after[x := nodes[x].(parent := p)] == moved
      && (p != from ==> moved != nodes && out[p] == nodes[p])
      && (p == from ==> (moved == nodes <==> list == nodes[p].children))
      && (moved == nodes ==> nodes[x := nodes[x].(parent := p)] == moved)
  {
    MoveWritten(nodes, x, p, index);
    hide *;
    var moved := MoveNode(nodes, x, p, index);
    if p != nodes[x].parent { assert moved[x].parent == p; }
    if p == nodes[x].parent { assert nodes[x].(parent := p) == nodes[x]; }
  }

  lemma MoveWritten(nodes: Nodes, x: Id, p: Id, index: Option<int>)
    requires IsTree(nodes) && x in nodes && x != ROOT && p in nodes && p !in Subtree(Shape(nodes), x)
    ensures var from := nodes[x].parent;
      && from in nodes && from != x && p != x
      && (p != from ==>
           MoveNode(nodes, x, p, index) ==
           nodes[from := nodes[from].(children := Without(nodes[from].children, x))]
                [p := nodes[p].(children := InsertChild(nodes[p].children, x, index))]
                [x := nodes[x].(parent := p)])
      && (p == from ==>
           MoveNode(nodes, x, p, index) ==
           nodes[p := nodes[p].(children := InsertChild(Without(nodes[p].children, x), x, index))])
  {
    ParentStored(nodes, x);
    StoredIds(nodes);
    OnlyParentLists(nodes, x, x);
    WithoutSubtree(nodes, Shape(nodes), x);
    forall y | y in nodes && y != nodes[x].parent ensures Without(nodes[y].children, x) == nodes[y].children {
      OnlyParentLists(nodes, x, y);
    }
    hide *;
    MoveMaps(nodes, x, p, index);
  }

  lemma MoveMaps(nodes: Nodes, x: Id, p: Id, index: Option<int>)
    requires x in nodes && p in nodes && nodes[x].parent in nodes && nodes[x].parent != x && p != x
    requires forall y :: y in nodes ==> nodes[y].id == y
    requires forall y :: y in nodes && y != nodes[x].parent ==> Without(nodes[y].children, x) == nodes[y].children
    ensures var from := nodes[x].parent;
      && (p != from ==>
           MoveNode(nodes, x, p, index) ==
           nodes[from := nodes[from].(children := Without(nodes[from].children, x))]
                [p := nodes[p].(children := InsertChild(nodes[p].children, x, index))]
                [x := nodes[x].(parent := p)])
      && (p == from ==>
           MoveNode(nodes, x, p, index) ==
           nodes[p := nodes[p].(children := InsertChild(Without(nodes[p].children, x), x, index))])
  {
    hide InsertChild;
    hide Without;
  }

  /** Removing: the parent's list, the subtree as it stands after the list changed, and the result. */
  lemma RemoveReady(nodes: Nodes, id: Id)
    requires IsTree(nodes) && id in nodes && id != ROOT
    ensures nodes[id].parent in nodes && NoRepeats(nodes[nodes[id].parent].children)
    ensures var p, kids := nodes[id].parent, KidsOf(Shape(nodes), id);
      var cut := nodes[p := nodes[p].(children := Without(nodes[p].children, id))];
      && cut[id] == nodes[id]
      && Encodes(cut, Cons(id, kids, Nil), p) && Distinct(Cons(id, kids, Nil))
      && cut - ({id} + Labels(kids)) == CutNodes(nodes, id, {id} + Labels(kids))
      && Sum({id} + Labels(kids), TextWeight(cut)) == Sum({id} + Labels(kids), TextWeight(nodes))
  {
    var f, p := Shape(nodes), nodes[id].parent;
    var kids := KidsOf(f, id);
    ParentStored(nodes, id);
    OnlyParentLists(nodes, id, id);
    KidsAreLabels(f, id);
    EncodesAt(nodes, f, NO_PARENT, id);
    EncodesAt(nodes, f, NO_PARENT, p);
    KidsAreLabels(f, p);
    RootsDistinct(KidsOf(f, p));
    CutReady(nodes, id, kids);
  }

  lemma CutReady(nodes: Nodes, id: Id, kids: Forest)
    requires id in nodes && nodes[id].id == id && nodes[id].children == Roots(kids) && Encodes(nodes, kids, id)
    requires nodes[id].parent in nodes && nodes[id].parent != id && nodes[id].parent !in Labels(kids)
    ensures var p := nodes[id].parent;
      var cut := nodes[p := nodes[p].(children := Without(nodes[p].children, id))];
      && cut[id] == nodes[id]
      && Encodes(cut, Cons(id, kids, Nil), p)
      && cut - ({id} + Labels(kids)) == CutNodes(nodes, id, {id} + Labels(kids))
      && Sum({id} + Labels(kids), TextWeight(cut)) == Sum({id} + Labels(kids), TextWeight(nodes))
  {
    var p := nodes[id].parent;
    var cut := nodes[p := nodes[p].(children := Without(nodes[p].children, id))];
    EncodesLabels(nodes, kids, id);
    EncodesFrame(nodes, cut, kids, id);
    assert Encodes(cut, Cons(id, kids, Nil), p);
    hide *;
    CutTwice(nodes, p, id, {id} + Labels(kids));
    SameTexts(nodes, cut, {id} + Labels(kids));
  }

  lemma CutTwice(nodes: Nodes, p: Id, id: Id, gone: set<Id>)
    requires id in nodes && nodes[id].parent == p && p in nodes && p !in gone
    ensures nodes[p := nodes[p].(children := Without(nodes[p].children, id))] - gone == CutNodes(nodes, id, gone)
  {
    hide Without;
  }

  lemma SameTexts(nodes: Nodes, cut: Nodes, xs: set<Id>)
    requires cut.Keys == nodes.Keys && forall y :: y in nodes ==> cut[y].text == nodes[y].text
    ensures Sum(xs, TextWeight(cut)) == Sum(xs, TextWeight(nodes))
  {
    SumEq(xs, TextWeight(cut), TextWeight(nodes));
  }

  lemma TargetIs(n: Node, op: Operation, target: Id)
    requires target == if op.parent != "" then op.parent else n.parent
    ensures target == TargetParent(n, op)
  {
  }

  /** The refusals of the topology part. */
  lemma StoredRefused(d: Document, op: Operation, props: Props, force: bool, limits: Limits, target: Id)
    requires ReadyToMove(d.nodes) && op.id in d.nodes && op.id != ROOT && target == TargetParent(d.nodes[op.id], op)
    ensures target != d.nodes[op.id].parent || op.index.Some? ==>
      var r := UpsertExisting(d, op, props, force, limits);
      && IsTree(d.nodes)
      && (target !in d.nodes ==> r == Failed(ParentNotFound))
      && (target in d.nodes ==>
            if target in Subtree(Shape(d.nodes), op.id) then r == Failed(Code.Cycle)
            else !d.nodes[target].kind.Container() ==> r == Failed(ParentNotContainer))
    ensures forall c, doc, eff :: UpsertExisting(d, op, props, force, limits) == Failed(c) ==>
      Agrees(Refused(c), doc, eff, UpsertExisting(d, op, props, force, limits))
  {
    hide IsTree;
    hide Subtree;
    hide MoveNode;
    hide TableLimits;
    hide Rewritten;
  }

  /** The content part on top of a relocation that took place. */
  lemma StoredAgrees(d: Document, op: Operation, props: Props, force: bool, limits: Limits, target: Id,
                     base: Nodes, n: Node, topologyChanged: bool, verdict: Verdict, doc: Document, eff: Effect)
    requires ReadyToMove(d.nodes) && op.id in d.nodes && op.id != ROOT && target == TargetParent(d.nodes[op.id], op)
    requires var stored := d.nodes[op.id];
      if target != stored.parent || op.index.Some?
      then && target in d.nodes && IsTree(d.nodes) && target !in Subtree(Shape(d.nodes), op.id)
           && d.nodes[target].kind.Container()
           && n == stored.(parent := target) && base[op.id := n] == MoveNode(d.nodes, op.id, target, op.index)
           && (topologyChanged <==> MoveNode(d.nodes, op.id, target, op.index) != d.nodes)
           && (!topologyChanged ==> base == d.nodes && n == stored)
      else n == stored && base == d.nodes && !topologyChanged
    requires var m := Rewritten(n, op, props);
      if n.kind != op.kind && n.children != [] && !op.kind.Container() then verdict == Refused(ParentNotContainer)
      else if TableLimits(m.kind, m.props, limits).Some?
      then verdict == Refused(TableLimits(m.kind, m.props, limits).value)
      else
        var changed := topologyChanged || m != n;
        && verdict == Done
        && doc == d.(nodes := if changed then base[op.id := m] else base,
                     totalTextBytes := d.totalTextBytes - (if n.kind != op.kind then |n.text| else 0))
        && eff == NO_EFFECT.(force := force, changed := changed, typeChanged := n.kind != op.kind)
    ensures Agrees(verdict, doc, eff, UpsertExisting(d, op, props, force, limits))
  {
    hide Rewritten;
    hide IsTree;
    hide Subtree;
    hide MoveNode;
    hide TableLimits;
    var m := Rewritten(n, op, props);
    RewrittenKeepsParent(n, op, props);
    MovedThenWritten(d.nodes, base, op.id, n, m);
  }

  lemma RewrittenKeepsParent(n: Node, op: Operation, props: Props)
    ensures Rewritten(n, op, props).parent == n.parent
  {
  }

  lemma MovedThenWritten(nodes: Nodes, base: Nodes, id: Id, n: Node, m: Node)
    ensures base[id := n][id := m] == base[id := m] && base[id := n][id] == n
    ensures m == n ==> base[id := n][id := m] == base[id := n]
    ensures id in nodes && nodes[id] == n && base == nodes ==> base[id := n] == base
    ensures id in nodes && m.parent == n.parent && base[id := n] != nodes ==>
      nodes[id] == n || nodes[id].parent != n.parent ==> base[id := m] != nodes
  {
  }

  /** Between two children of `id`: `done` is gone from `start`, `left` is still stored, `todo` are its roots. */
  ghost predicate Sweeping(start: Nodes, nodes: Nodes, id: Id, kids: Forest, left: Forest,
                           done: set<Id>, listed: seq<Id>, todo: seq<Id>) {
    && Roots(left) == todo && Encodes(nodes, left, id) && Distinct(left) && (left == kids || left < kids)
    && id !in done && id !in Labels(left) && Labels(left) !! done
    && Labels(kids) == done + Labels(left)
    && nodes == start - done && id in start
    && listed + Postorder(left) == Postorder(kids)
  }

  lemma SweepStart(nodes: Nodes, id: Id, kids: Forest, parent: Id)
    requires Encodes(nodes, Cons(id, kids, Nil), parent) && Distinct(Cons(id, kids, Nil))
    ensures Sweeping(nodes, nodes, id, kids, kids, {}, [], nodes[id].children)
    ensures Sum({}, TextWeight(nodes)) == 0
  {
  }

  lemma SweepHead(start: Nodes, nodes: Nodes, id: Id, kids: Forest, left: Forest,
                  done: set<Id>, listed: seq<Id>, c: Id, todo: seq<Id>)
    requires Sweeping(start, nodes, id, kids, left, done, listed, [c] + todo)
    ensures left.Cons? && left.id == c && left.kids < kids && left.rest < kids
    ensures Encodes(nodes, Cons(c, left.kids, Nil), id) && Distinct(Cons(c, left.kids, Nil))
    ensures Roots(left.rest) == todo && Distinct(left.rest)
    ensures var gone := {c} + Labels(left.kids);
      && Labels(left) == gone + Labels(left.rest) && gone !! Labels(left.rest)
      && Encodes(nodes - gone, left.rest, id)
      && nodes - gone == start - (done + gone)
  {
    StepRoots(nodes, id, left, c, todo);
    var gone := {c} + Labels(left.kids);
    SweepRest(nodes, id, left, gone);
    TwoCuts(start, done, gone);
  }

  lemma SweepNext(start: Nodes, nodes: Nodes, id: Id, kids: Forest, left: Forest,
                  done: set<Id>, listed: seq<Id>, c: Id, todo: seq<Id>)
    requires Sweeping(start, nodes, id, kids, left, done, listed, [c] + todo)
    ensures left.Cons? && left.id == c && left.kids < kids
    ensures Encodes(nodes, Cons(c, left.kids, Nil), id) && Distinct(Cons(c, left.kids, Nil))
    ensures var gone := {c} + Labels(left.kids);
      && Sweeping(start, nodes - gone, id, kids, left.rest, done + gone,
                  listed + Postorder(left.kids) + [c], todo)
      && Sum(done + gone, TextWeight(start)) == Sum(done, TextWeight(start)) + Sum(gone, TextWeight(nodes))
  {
    SweepHead(start, nodes, id, kids, left, done, listed, c, todo);
    var gone := {c} + Labels(left.kids);
    ListNext(listed, left, kids);
    hide Labels;
    hide Distinct;
    hide Encodes;
    hide Sum;
    hide Postorder;
    hide Roots;
    SweepSum(start, done, gone);
    assert done + gone + Labels(left.rest) == done + Labels(left);
  }

  lemma ListNext(listed: seq<Id>, left: Forest, kids: Forest)
    requires left.Cons? && listed + Postorder(left) == Postorder(kids)
    ensures listed + Postorder(left.kids) + [left.id] + Postorder(left.rest) == Postorder(kids)
  {
    ConcatAssoc(listed, Postorder(left.kids), [left.id]);
    ConcatAssoc(listed, Postorder(left.kids) + [left.id], Postorder(left.rest));
  }

  lemma SweepRest(nodes: Nodes, id: Id, left: Forest, gone: set<Id>)
    requires left.Cons? && Encodes(nodes, left, id) && Distinct(left) && gone == {left.id} + Labels(left.kids)
    ensures Encodes(nodes - gone, left.rest, id)
  {
    EncodesLabels(nodes, left, id);
    EncodesFrame(nodes, nodes - gone, left.rest, id);
  }

  lemma TwoCuts(nodes: Nodes, a: set<Id>, b: set<Id>)
    ensures (nodes - a) - b == nodes - (a + b)
  {
  }

  lemma SweepEnd(start: Nodes, nodes: Nodes, id: Id, kids: Forest, left: Forest, done: set<Id>, listed: seq<Id>)
    requires Sweeping(start, nodes, id, kids, left, done, listed, [])
    ensures done == Labels(kids) && listed == Postorder(kids) && id in nodes && nodes[id] == start[id]
    ensures nodes - {id} == start - ({id} + Labels(kids))
    ensures Sum({id} + Labels(kids), TextWeight(start)) == Sum(done, TextWeight(start)) + |start[id].text|
  {
    assert left == Nil;
    SweepSum(start, done, {id});
    SumTake({id}, TextWeight(start - done), id);
    assert done + {id} == {id} + Labels(kids);
  }

  /** What is swept next weighs the same in the map without what was swept before. */
  lemma SweepSum(nodes: Nodes, done: set<Id>, gone: set<Id>)
    requires done !! gone
    ensures Sum(done + gone, TextWeight(nodes)) == Sum(done, TextWeight(nodes)) + Sum(gone, TextWeight(nodes - done))
  {
    SumEq(gone, TextWeight(nodes - done), TextWeight(nodes));
    SumUnion(done, gone, TextWeight(nodes));
  }

  /**
   One operation on the current document: validate, run the helper on a copy, validate the result.
   Whatever is refused, or crashes, leaves the document as it was.
   */
  method Apply(current: Document, op: Operation, limits: Limits)
    returns (doc: Document, eff: Effect, verdict: Verdict)
    requires Intact(current, limits) && 0 <= limits.maxTextBytesPerNode
    ensures ReadyToMove(current.nodes)
    ensures Agrees(verdict, doc, eff, Reducer.Apply(current, op, limits))
    ensures verdict != Done ==> doc == current
  {
    ReadyFromIntact(current, limits);
    doc, eff := current, NO_EFFECT;
    hide ValidateOperation;
    hide Draft;
    hide ReadyToMove;
    hide Intact;
    var invalid := ValidateOperation(op, limits);
    if invalid.Some? { return doc, eff, Refused(invalid.value); }
    OtherRefused(op, limits);
    if op.op == OpCommit {
      CommitDraft(current, op, limits);
      return doc, eff.(commit := true), Done;
    }
    ApplyCases(current, op, limits);
    DraftIntact(current, op, limits);
    hide Reducer.Apply;
    var cand := new Candidate(current);
    verdict := cand.ApplyOperation(op, limits);
    if verdict != Done { return; }
    eff := cand.eff;
    if !eff.changed { return cand.Doc(), eff, Done; }
    IntactWellFormed(cand.Doc(), limits);
    doc, verdict := Accept(current, cand, limits);
    if verdict != Done { eff := NO_EFFECT; }
  }

  /** A changed candidate is validated and becomes the next revision. */
  method Accept(current: Document, cand: Candidate, limits: Limits) returns (doc: Document, verdict: Verdict)
    requires WellFormed(cand.Doc())
    modifies cand`revision
    ensures if Valid(old(cand.Doc()), limits)
      then verdict == Done && doc == old(cand.Doc()).(revision := current.revision + 1)
      else doc == current && verdict.Refused? && verdict.code.Resource()
  {
    hide WellFormed;
    hide Valid;
    var err := ValidateInvariants(cand.Doc(), limits);
    if err.Some? { return current, Refused(err.value); }
    cand.revision := current.revision + 1;
    return cand.Doc(), Done;
  }

  lemma IntactWellFormed(d: Document, limits: Limits)
    requires Intact(d, limits)
    ensures WellFormed(d)
  {
  }

  lemma OtherRefused(op: Operation, limits: Limits)
    requires ValidateOperation(op, limits).None?
    ensures !op.op.OpOther?
  {
    hide NormalizeProps;
  }

  lemma CommitDraft(d: Document, op: Operation, limits: Limits)
    requires ReadyToMove(d.nodes) && op.op == OpCommit
    ensures Draft(d, op, limits) == Applied(d, NO_EFFECT.(commit := true))
  {
  }
}

/** Which limits a move can break: none under the same parent, otherwise depth, width and bytes of the target. */
module RelocationLimits {
  import opened Forests
  import opened Protocol
  import opened Documents
  import opened Sums
  import opened Reducer
  import opened TreeSteps
  import opened Preservation
  import opened UpsertLaws

  // ---- depth ----

  lemma InsertHeight(f: Forest, i: nat, x: Id, kids: Forest)
    requires i <= |Roots(f)|
    ensures Height(InsertTree(f, i, x, kids)) == Most(Height(f), 1 + Height(kids))
  {
  }

  function Most(a: nat, b: nat): nat { if a >= b then a else b }

  /** A grafted tree reaches one level below its parent, and as far as it is high. */
  lemma {:induction false} GraftHeight(f: Forest, p: Id, i: nat, x: Id, kids: Forest)
    requires p in Labels(f) && i <= |Roots(KidsOf(f, p))|
    ensures Height(Graft(f, p, i, x, kids)) == Most(Height(f), Level(f, p) + 2 + Height(kids))
    decreases f
  {
    hide *;
    GraftCases(f, p, i, x, kids);
    HeightCons(f.id, f.kids, f.rest);
    if f.id == p {
      InsertHeight(f.kids, i, x, kids);
      HeightCons(f.id, InsertTree(f.kids, i, x, kids), f.rest);
      MostOf(Height(f.kids), 1 + Height(kids), Height(f.rest));
    } else if p in Labels(f.kids) {
      GraftHeight(f.kids, p, i, x, kids);
      HeightCons(f.id, Graft(f.kids, p, i, x, kids), f.rest);
      MostOf(Height(f.kids), Level(f.kids, p) + 2 + Height(kids), Height(f.rest));
    } else {
      GraftHeight(f.rest, p, i, x, kids);
      HeightCons(f.id, f.kids, Graft(f.rest, p, i, x, kids));
      MostAssoc(1 + Height(f.kids), Height(f.rest), Level(f.rest, p) + 2 + Height(kids));
    }
  }

  /** Where a grafted tree goes. */
  lemma GraftCases(f: Forest, p: Id, i: nat, x: Id, kids: Forest)
    requires p in Labels(f) && i <= |Roots(KidsOf(f, p))|
    ensures f.Cons?
    ensures f.id == p ==>
      && Level(f, p) == 0 && i <= |Roots(f.kids)|
      && Graft(f, p, i, x, kids) == Cons(f.id, InsertTree(f.kids, i, x, kids), f.rest)
    ensures f.id != p && p in Labels(f.kids) ==>
      && Level(f, p) == 1 + Level(f.kids, p) && i <= |Roots(KidsOf(f.kids, p))|
      && Graft(f, p, i, x, kids) == Cons(f.id, Graft(f.kids, p, i, x, kids), f.rest)
    ensures f.id != p && p !in Labels(f.kids) ==>
      && p in Labels(f.rest) && Level(f, p) == Level(f.rest, p) && i <= |Roots(KidsOf(f.rest, p))|
      && Graft(f, p, i, x, kids) == Cons(f.id, f.kids, Graft(f.rest, p, i, x, kids))
  {
    hide Roots;
    hide InsertTree;
  }

  lemma HeightCons(x: Id, kids: Forest, rest: Forest)
    ensures Height(Cons(x, kids, rest)) == Most(1 + Height(kids), Height(rest))
  {
  }

  lemma MostOf(a: nat, b: nat, c: nat)
    ensures Most(1 + Most(a, b), c) == Most(Most(1 + a, c), 1 + b)
  {
  }

  lemma MostAssoc(a: nat, b: nat, c: nat)
    ensures Most(a, Most(b, c)) == Most(Most(a, b), c)
  {
  }

  lemma {:induction false} PrunedLevel(f: Forest, x: Id, p: Id)
    requires Distinct(f) && p in Labels(f) && p in Labels(Prune(f, x))
    ensures Level(Prune(f, x), p) == Level(f, p)
    decreases f
  {
    PruneFacts(f.kids, x);
    PruneFacts(f.rest, x);
    if f.id == x {
      if p in Labels(f.rest) { PrunedLevel(f.rest, x, p); }
    } else if f.id != p {
      if p in Labels(f.kids) { PrunedLevel(f.kids, x, p); } else { PrunedLevel(f.rest, x, p); }
    }
  }

  /** A subtree ends within the tree. */
  lemma {:induction false} SubtreeHeight(f: Forest, x: Id)
    requires x in Labels(f)
    ensures Level(f, x) + 1 + Height(KidsOf(f, x)) <= Height(f)
    decreases f
  {
    if f.id != x {
      if x in Labels(f.kids) { SubtreeHeight(f.kids, x); } else { SubtreeHeight(f.rest, x); }
    }
  }

  /** The depth the deepest node of the subtree of `x` has once `x` is a child of `p`. */
  ghost function DepthUnder(nodes: Nodes, x: Id, p: Id): nat
    requires IsTree(nodes) && x in nodes && p in nodes
  {
    Level(Shape(nodes), p) + 1 + Height(KidsOf(Shape(nodes), x))
  }

  lemma MovedHeight(nodes: Nodes, x: Id, p: Id, index: Option<int>)
    requires IsTree(nodes) && x in nodes && x != ROOT
    requires p in nodes && p !in Subtree(Shape(nodes), x) && nodes[p].kind.Container()
    ensures var moved := MoveNode(nodes, x, p, index);
      && IsTree(moved) && Height(Shape(moved)) <= Most(Height(Shape(nodes)), DepthUnder(nodes, x, p) + 1)
      && DepthUnder(nodes, x, p) + 1 <= Height(Shape(moved))
    ensures p == nodes[x].parent ==> DepthUnder(nodes, x, p) + 1 <= Height(Shape(nodes))
  {
    hide *;
    DepthIs(nodes, x, p);
    var f := Shape(nodes);
    var g, kids := Prune(f, x), KidsOf(f, x);
    Moved(nodes, x, p, index);
    PruneFacts(f, x);
    PrunedLevel(f, x, p);
    GraftHeight(g, p, InsertIndex(|Roots(KidsOf(g, p))|, index), x, kids);
    MostIs(Height(g), Level(g, p) + 2 + Height(kids));
    MostIs(Height(f), DepthUnder(nodes, x, p) + 1);
    DepthBelow(nodes, x);
  }

  lemma DepthBelow(nodes: Nodes, x: Id)
    requires IsTree(nodes) && x in nodes && x != ROOT
    ensures nodes[x].parent in nodes && DepthUnder(nodes, x, nodes[x].parent) + 1 <= Height(Shape(nodes))
  {
    var f := Shape(nodes);
    ParentStored(nodes, x);
    EncodesAt(nodes, f, NO_PARENT, x);
    SubtreeHeight(f, x);
    assert Roots(f) == [ROOT];
    hide IsTree;
    hide KidsOf;
    hide Level;
  }

  lemma DepthIs(nodes: Nodes, x: Id, p: Id)
    requires IsTree(nodes) && x in nodes && p in nodes
    ensures Distinct(Shape(nodes)) && x in Labels(Shape(nodes)) && p in Labels(Shape(nodes))
    ensures DepthUnder(nodes, x, p) == Level(Shape(nodes), p) + 1 + Height(KidsOf(Shape(nodes), x))
  {
  }

  lemma MostIs(a: nat, b: nat)
    ensures Most(a, b) == if a >= b then a else b
  {
  }

  // ---- width ----

  lemma {:induction false} WithoutOne(s: seq<Id>, x: Id)
    requires NoRepeats(s)
    ensures |Without(s, x)| == |s| - if x in s then 1 else 0
    ensures LengthSum(Without(s, x)) == LengthSum(s) - if x in s then |x| else 0
    decreases |s|
  {
    if s != [] {
      var rest := s[1..];
      assert forall k :: 0 <= k < |rest| ==> rest[k] == s[k + 1];
      WithoutOne(rest, x);
      assert x in s <==> x == s[0] || x in rest;
      var r := Without(rest, x);
      assert [] + r == r;
      assert ([s[0]] + r)[1..] == r;
    }
  }

  lemma {:induction false} LengthInserted(s: seq<Id>, i: nat, x: Id)
    requires i <= |s|
    ensures LengthSum(InsertAt(s, i, x)) == LengthSum(s) + |x|
    decreases i
  {
    var t := InsertAt(s, i, x);
    if i == 0 {
      assert t[0] == x && t[1..] == s;
    } else {
      assert t[0] == s[0] && t[1..] == InsertAt(s[1..], i - 1, x);
      LengthInserted(s[1..], i - 1, x);
    }
  }

  /** The children of a node after the move: the same number and length under the same parent. */
  lemma RelinkedSizes(n: Node, x: Id, p: Id, index: Option<int>)
    requires NoRepeats(n.children)
    ensures var m, out, back := Relinked(n, x, p, index), if x in n.children then 1 else 0, if n.id == p then 1 else 0;
      && |m.children| == |n.children| - out + back
      && LengthSum(m.children) == LengthSum(n.children) - out * |x| + back * |x|
  {
    var rest := Without(n.children, x);
    WithoutOne(n.children, x);
    LengthInserted(rest, InsertIndex(|rest|, index), x);
    hide Without;
    hide LengthSum;
  }

  lemma ListsOnce(nodes: Nodes, x: Id, y: Id)
    requires IsTree(nodes) && x in nodes && x != ROOT && y in nodes
    ensures NoRepeats(nodes[y].children) && (x in nodes[y].children <==> y == nodes[x].parent)
  {
    ParentStored(nodes, x);
    EncodesAt(nodes, Shape(nodes), NO_PARENT, y);
    KidsAreLabels(Shape(nodes), y);
    RootsDistinct(KidsOf(Shape(nodes), y));
    OnlyParentLists(nodes, x, y);
    WithoutFacts(nodes[y].children, x);
  }

  /** Only the list of a new parent grows. */
  lemma MovedWidth(nodes: Nodes, x: Id, p: Id, index: Option<int>, limits: Limits)
    requires IsTree(nodes) && x in nodes && x != ROOT && p in nodes && ChildrenFit(nodes, nodes.Keys, limits)
    ensures var moved := MoveNode(nodes, x, p, index);
      ChildrenFit(moved, moved.Keys, limits) <==>
        p == nodes[x].parent || |nodes[p].children| < limits.maxChildren
  {
    var moved := MoveNode(nodes, x, p, index);
    StoredIds(nodes);
    forall y | y in nodes
      ensures |moved[y].children| ==
        |nodes[y].children| - (if y == nodes[x].parent then 1 else 0) + if y == p then 1 else 0
    {
      ListsOnce(nodes, x, y);
      RelinkedSizes(nodes[y], x, p, index);
    }
    hide IsTree;
    hide Relinked;
  }

  // ---- bytes ----

  lemma RelinkedBytes(n: Node, x: Id, p: Id, index: Option<int>)
    requires NoRepeats(n.children)
    ensures NodeBytes(Relinked(n, x, p, index)) ==
      NodeBytes(n) + (if n.id == x then |p| - |n.parent| else 0)
      - (if x in n.children then |x| else 0) + if n.id == p then |x| else 0
  {
    RelinkedSizes(n, x, p, index);
    hide Without;
    hide LengthSum;
  }

  /** The weights with `amount` more at one node. */
  function Plus(v: Id -> int, at: Id, amount: int): Id -> int { (y: Id) => v(y) + if y == at then amount else 0 }

  lemma SumShifted(keys: set<Id>, v: Id -> int, at: Id, amount: int)
    requires at in keys
    ensures Sum(keys, Plus(v, at, amount)) == Sum(keys, v) + amount
  {
    SumTake(keys, v, at);
    SumTake(keys, Plus(v, at, amount), at);
    SumEq(keys - {at}, v, Plus(v, at, amount));
  }

  /** A move costs the difference of the two parents' names, which the moved node stores. */
  lemma MovedBytes(nodes: Nodes, x: Id, p: Id, index: Option<int>)
    requires IsTree(nodes) && x in nodes && x != ROOT && p in nodes
    ensures DocumentBytes(MoveNode(nodes, x, p, index)) == DocumentBytes(nodes) + |p| - |nodes[x].parent|
  {
    hide *;
    var moved, from, v := MoveNode(nodes, x, p, index), nodes[x].parent, ByteWeight(nodes);
    StoredIds(nodes);
    ParentStored(nodes, x);
    MoveAt(nodes, x, p, index, x);
    var v1 := Plus(v, x, |p| - |from|);
    var v2 := Plus(v1, from, -|x|);
    SumShifted(nodes.Keys, v, x, |p| - |from|);
    SumShifted(nodes.Keys, v1, from, -|x|);
    SumShifted(nodes.Keys, v2, p, |x|);
    forall y | y in nodes ensures ByteWeight(moved)(y) == Plus(v2, p, |x|)(y) {
      ListsOnce(nodes, x, y);
      MovedWeight(nodes, x, p, index, y);
    }
    SumEq(nodes.Keys, ByteWeight(moved), Plus(v2, p, |x|));
    BytesOf(nodes);
    BytesOf(moved);
  }

  lemma BytesOf(nodes: Nodes)
    ensures DocumentBytes(nodes) == Sum(nodes.Keys, ByteWeight(nodes))
  {
  }

  lemma MovedWeight(nodes: Nodes, x: Id, p: Id, index: Option<int>, y: Id)
    requires y in nodes && nodes[y].id == y && NoRepeats(nodes[y].children)
    requires x in nodes && (x in nodes[y].children <==> y == nodes[x].parent)
    ensures ByteWeight(MoveNode(nodes, x, p, index))(y) ==
      Plus(Plus(Plus(ByteWeight(nodes), x, |p| - |nodes[x].parent|), nodes[x].parent, -|x|), p, |x|)(y)
  {
    RelinkedBytes(nodes[y], x, p, index);
    hide Relinked;
    hide NodeBytes;
  }

  // ---- all limits ----

  /** A new parent has room below it, among its children, and in the bytes of the document. */
  ghost predicate Room(d: Document, x: Id, p: Id, limits: Limits)
    requires IsTree(d.nodes) && x in d.nodes && p in d.nodes
  {
    && DepthUnder(d.nodes, x, p) <= limits.maxDepth
    && |d.nodes[p].children| < limits.maxChildren
    && DocumentBytes(d.nodes) + |p| - |d.nodes[x].parent| <= limits.maxDocumentBytes
  }

  /** A move within one parent keeps every limit; any other keeps them exactly when the new parent has room. */
  lemma MoveLimits(d: Document, x: Id, p: Id, index: Option<int>, limits: Limits)
    requires Valid(d, limits) && x in d.nodes && x != ROOT
    requires p in d.nodes && p !in Subtree(Shape(d.nodes), x) && d.nodes[p].kind.Container()
    ensures Valid(d.(nodes := MoveNode(d.nodes, x, p, index)), limits) <==>
      p == d.nodes[x].parent || Room(d, x, p, limits)
  {
    var moved := MoveNode(d.nodes, x, p, index);
    MoveFrame(d.nodes, x, p, index);
    MovedHeight(d.nodes, x, p, index);
    MovedBytes(d.nodes, x, p, index);
    MovedText(d.nodes, x, p, index);
    NodeCount(d.nodes);
    NodeCount(moved);
    assert |moved| == |moved.Keys| && |d.nodes| == |d.nodes.Keys|;
    ValidIs(d, limits);
    MovedWidth(d.nodes, x, p, index, limits);
    hide *;
    ValidIs(d.(nodes := moved), limits);
    RoomIs(d, x, p, limits);
    MostIs(Height(Shape(d.nodes)), DepthUnder(d.nodes, x, p) + 1);
  }

  lemma MovedText(nodes: Nodes, x: Id, p: Id, index: Option<int>)
    ensures TextBytes(MoveNode(nodes, x, p, index)) == TextBytes(nodes)
  {
    TextUnchanged(nodes, MoveNode(nodes, x, p, index));
    hide Relinked;
  }

  lemma ValidIs(d: Document, limits: Limits)
    requires IsTree(d.nodes)
    ensures Valid(d, limits) <==>
      && d.totalTextBytes == TextBytes(d.nodes) && Size(Shape(d.nodes)) <= limits.maxNodes
      && Height(Shape(d.nodes)) <= limits.maxDepth + 1 && ChildrenFit(d.nodes, d.nodes.Keys, limits)
      && DocumentBytes(d.nodes) <= limits.maxDocumentBytes && d.totalTextBytes <= limits.maxTotalTextBytes
  {
    hide IsTree;
    hide TextBytes;
    hide DocumentBytes;
    hide ChildrenFit;
  }

  lemma RoomIs(d: Document, x: Id, p: Id, limits: Limits)
    requires IsTree(d.nodes) && x in d.nodes && p in d.nodes
    ensures Room(d, x, p, limits) <==>
      && DepthUnder(d.nodes, x, p) <= limits.maxDepth
      && |d.nodes[p].children| < limits.maxChildren
      && DocumentBytes(d.nodes) + |p| - |d.nodes[x].parent| <= limits.maxDocumentBytes
  {
    hide DepthUnder;
    hide DocumentBytes;
  }
}

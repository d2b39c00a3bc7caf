/**
 The document (document/document.go) and, declaratively, what it means for one to be valid:
 its node map encodes an ordered tree with distinct labels, the parent and child links agree,
 the stored text total is the true one, and the limits hold.
 */
module Documents {
  import opened Forests
  import opened Protocol
  import opened Sums

  /** `explicit` is None for Go's nil map, which differs from an empty one. */
  datatype Node = Node(
    id: Id, kind: NodeType, parent: Id, children: seq<Id>, props: Props,
    explicit: Option<map<string, bool>>, text: string)

  type Nodes = map<Id, Node>

  datatype Document = Document(revision: nat, nodes: Nodes, totalTextBytes: int)

  datatype Effect = Effect(changed: bool, commit: bool, removed: seq<Id>, typeChanged: bool, force: bool)

  const NO_EFFECT := Effect(false, false, [], false, false)

  function NewNode(id: Id, kind: NodeType, parent: Id, props: Props, explicit: map<string, bool>): Node {
    Node(id, kind, parent, [], props, Some(explicit), "")
  }

  function NewDocument(): Document {
    Document(0, map[ROOT := Node(ROOT, Box, NO_PARENT, [], Defaults(Box), None, "")], 0)
  }

  // ---- structure ----

  /** The links stored in `nodes` for the labels of `f` are exactly those of `f`, hung under `parent`. */
  ghost predicate Encodes(nodes: Nodes, f: Forest, parent: Id) {
    match f
    case Nil => true
    case Cons(x, kids, rest) =>
      && x in nodes && nodes[x].id == x && nodes[x].parent == parent
      && nodes[x].children == Roots(kids)
      && Encodes(nodes, kids, x) && Encodes(nodes, rest, parent)
  }

  /** `f` is a tree with root `ROOT` and distinct labels, and `nodes` is that tree and nothing else. */
  ghost predicate Shapes(nodes: Nodes, f: Forest) {
    && f.Cons? && f.id == ROOT && f.rest == Nil
    && Distinct(f) && Labels(f) == nodes.Keys && Encodes(nodes, f, NO_PARENT)
  }

  /** The node's type is known, and only a container has children. */
  predicate NodeOk(n: Node) {
    n.kind.Valid() && (n.children == [] || n.kind.Container())
  }

  ghost predicate NodesOk(nodes: Nodes) {
    forall x :: x in nodes ==> NodeOk(nodes[x])
  }

  ghost predicate IsTree(nodes: Nodes) {
    && (exists f :: Shapes(nodes, f))
    && NodesOk(nodes) && nodes[ROOT].kind == Box
  }

  ghost function Shape(nodes: Nodes): (f: Forest)
    requires IsTree(nodes)
    ensures Shapes(nodes, f)
  {
    var f :| Shapes(nodes, f);
    f
  }

  // ---- byte accounting ----

  function TextWeight(nodes: Nodes): Id -> int {
    (x: Id) => if x in nodes then |nodes[x].text| else 0
  }

  /** The bytes of retained text in the whole map. */
  ghost function TextBytes(nodes: Nodes): int {
    Sum(nodes.Keys, TextWeight(nodes))
  }

  function LengthSum(s: seq<Id>): nat {
    if s == [] then 0 else |s[0]| + LengthSum(s[1..])
  }

  function PropWeight(p: Props): string -> int {
    (k: string) => if k in p then |k| + |p[k].bytes| else 0
  }

  function MarkWeight(m: map<string, bool>): string -> int {
    (k: string) => if k in m && m[k] then |k| + 1 else 0
  }

  ghost function NodeBytes(n: Node): int {
    |n.parent| + |n.text| + LengthSum(n.children)
    + Sum(n.props.Keys, PropWeight(n.props))
    + match n.explicit
      case None => 0
      case Some(m) => Sum(m.Keys, MarkWeight(m))
  }

  ghost function ByteWeight(nodes: Nodes): Id -> int {
    (x: Id) => if x in nodes then |x| + NodeBytes(nodes[x]) else 0
  }

  ghost function DocumentBytes(nodes: Nodes): int {
    Sum(nodes.Keys, ByteWeight(nodes))
  }

  // ---- the declarative statement the validator decides ----

  /** The structural half: a rooted tree whose text total is right. */
  ghost predicate WellFormed(d: Document) {
    IsTree(d.nodes) && d.totalTextBytes == TextBytes(d.nodes)
  }

  /** Every node has at most `maxChildren` children. */
  ghost predicate ChildrenFit(nodes: Nodes, xs: set<Id>, limits: Limits) {
    forall x :: x in xs && x in nodes ==> |nodes[x].children| <= limits.maxChildren
  }

  /** The resource half, for a tree `f`. The root is at depth 0, so a tree of h levels reaches depth h - 1. */
  ghost predicate WithinLimits(d: Document, f: Forest, limits: Limits) {
    && Size(f) <= limits.maxNodes
    && Height(f) <= limits.maxDepth + 1
    && ChildrenFit(d.nodes, d.nodes.Keys, limits)
    && DocumentBytes(d.nodes) <= limits.maxDocumentBytes
    && d.totalTextBytes <= limits.maxTotalTextBytes
  }

  ghost predicate Valid(d: Document, limits: Limits) {
    WellFormed(d) && WithinLimits(d, Shape(d.nodes), limits)
  }

  // ---- facts about encodings ----

  /** Two maps that agree on the links of the labels of `f` encode it alike. */
  lemma EncodesFrame(nodes: Nodes, nodes': Nodes, f: Forest, parent: Id)
    requires Encodes(nodes, f, parent)
    requires forall x :: x in Labels(f) ==>
      x in nodes' && x in nodes && nodes'[x].id == nodes[x].id && nodes'[x].parent == nodes[x].parent
      && nodes'[x].children == nodes[x].children
    ensures Encodes(nodes', f, parent)
  {
  }

  lemma EncodesLabels(nodes: Nodes, f: Forest, parent: Id)
    requires Encodes(nodes, f, parent)
    ensures Labels(f) <= nodes.Keys
  {
  }

  /** A map encodes at most one forest with given top-level labels. */
  lemma {:induction false} EncodesUnique(nodes: Nodes, f: Forest, g: Forest, p: Id, q: Id)
    requires Encodes(nodes, f, p) && Encodes(nodes, g, q) && Roots(f) == Roots(g)
    ensures f == g
    decreases f
  {
    match f
    case Nil =>
      assert g == Nil;
    case Cons(x, kids, rest) =>
      assert g.Cons? && g.id == x by { assert Roots(f)[0] == x; }
      assert Roots(rest) == Roots(f)[1..] && Roots(g.rest) == Roots(g)[1..];
      EncodesUnique(nodes, kids, g.kids, x, x);
      EncodesUnique(nodes, rest, g.rest, p, q);
  }

  lemma ShapeUnique(nodes: Nodes, f: Forest, g: Forest)
    requires Shapes(nodes, f) && Shapes(nodes, g)
    ensures f == g
  {
    EncodesUnique(nodes, f, g, NO_PARENT, NO_PARENT);
  }

  /** `Shape` can only be the given forest. */
  lemma ShapeIs(nodes: Nodes, f: Forest)
    requires IsTree(nodes) && Shapes(nodes, f)
    ensures Shape(nodes) == f
  {
    ShapeUnique(nodes, f, Shape(nodes));
  }

  /** The size of the tree is the length of the map. */
  lemma NodeCount(nodes: Nodes)
    requires IsTree(nodes)
    ensures Size(Shape(nodes)) == |nodes|
  {
    SizeCounts(Shape(nodes));
    assert |nodes| == |nodes.Keys|;
  }

  /** One step along a stored child list. */
  lemma StepRoots(nodes: Nodes, id: Id, left: Forest, c: Id, todo: seq<Id>)
    requires Encodes(nodes, left, id) && Roots(left) == [c] + todo
    ensures left.Cons? && left.id == c && Encodes(nodes, Cons(c, left.kids, Nil), id)
    ensures Encodes(nodes, left.rest, id) && Roots(left.rest) == todo
    ensures left.kids < left && left.rest < left
  {
    assert left.Cons?;
    assert Roots(left)[0] == c && Roots(left)[1..] == todo;
  }

  /** `left` are the children of `id` that a walk has still to visit, `todo` their roots. */
  ghost predicate Ahead(nodes: Nodes, id: Id, kids: Forest, left: Forest, todo: seq<Id>) {
    Roots(left) == todo && Encodes(nodes, left, id) && (left == kids || left < kids)
  }

  lemma AheadStep(nodes: Nodes, id: Id, kids: Forest, left: Forest, c: Id, todo: seq<Id>)
    requires Ahead(nodes, id, kids, left, [c] + todo)
    ensures left.Cons? && left.id == c && Encodes(nodes, Cons(c, left.kids, Nil), id)
    ensures left.kids < kids && Ahead(nodes, id, kids, left.rest, todo)
  {
    StepRoots(nodes, id, left, c, todo);
    hide Roots;
    hide Encodes;
  }

  /** What the map stores at a label: its children, and a parent that is above it. */
  lemma EncodesAt(nodes: Nodes, f: Forest, parent: Id, x: Id)
    requires Encodes(nodes, f, parent) && x in Labels(f) && Distinct(f)
    ensures x in nodes && nodes[x].id == x
    ensures nodes[x].children == Roots(KidsOf(f, x))
    ensures Encodes(nodes, KidsOf(f, x), x)
    ensures Level(f, x) == 0 <==> x in Roots(f)
    ensures x in Roots(f) ==> nodes[x].parent == parent
    ensures x !in Roots(f) ==>
      && nodes[x].parent in Labels(f)
      && Level(f, nodes[x].parent) + 1 == Level(f, x)
      && x in Roots(KidsOf(f, nodes[x].parent))
  {
    RootsAreLabels(f);
    if f.id == x {
    } else if x in Labels(f.kids) {
      EncodesAt(nodes, f.kids, f.id, x);
      RootsAreLabels(f.kids);
      RootsAreLabels(f.rest);
      if x !in Roots(f.kids) {
        assert nodes[x].parent in Labels(f.kids);
      }
    } else {
      EncodesAt(nodes, f.rest, parent, x);
      RootsAreLabels(f.rest);
    }
  }

}

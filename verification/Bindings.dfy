/** Key bindings: a preorder fold over the action items that refuses a key bound twice (runtime/bindings.go). */
module Bindings {
  import opened Forests
  import opened Protocol
  import opened Documents

  datatype Binding = Binding(nodeId: Id, key: string, caption: string, action: string, args: Option<Json>)

  type KeyMap = map<string, Binding>

  datatype Bound = Conflict(code: Code) | Indexed(bindings: KeyMap)

  // ---- the items of one node ----

  function Field(j: Json, name: string): Json {
    if j.Obj? && name in j.fields then j.fields[name] else Null
  }

  predicate ItemDecodes(j: Json) {
    && (j.Null? || j.Obj?)
    && StringLike(Field(j, "key")) && StringLike(Field(j, "label")) && StringLike(Field(j, "action"))
  }

  function ItemBinding(x: Id, j: Json): Binding {
    Binding(x, StringOf(Field(j, "key")), StringOf(Field(j, "label")), StringOf(Field(j, "action")),
            if j.Obj? && "args" in j.fields then Some(j.fields["args"]) else None)
  }

  predicate ItemsDecode(n: Node) {
    n.kind.Actions? ==>
      ArrayLike(PropJson(n.props, "items")) && forall j :: j in ItemsOf(PropJson(n.props, "items")) ==> ItemDecodes(j)
  }

  /** The bindings a node declares, in order; none unless it is an actions node. */
  function Declared(x: Id, n: Node): seq<Binding> {
    if !n.kind.Actions? then [] else
      var items := ItemsOf(PropJson(n.props, "items"));
      seq(|items|, i requires 0 <= i < |items| => ItemBinding(x, items[i]))
  }

  function DeclaredAt(nodes: Nodes, x: Id): seq<Binding> {
    if x in nodes then Declared(x, nodes[x]) else []
  }

  // ---- the fold ----

  function AddAll(bs: seq<Binding>, out: KeyMap): Bound {
    if bs == [] then Indexed(out)
    else if bs[0].key in out then Conflict(BindingConflict)
    else AddAll(bs[1..], out[bs[0].key := bs[0]])
  }

  /** The walk of buildBindings over a forest, starting from `out`. */
  function Fold(nodes: Nodes, f: Forest, out: KeyMap): Bound {
    match f
    case Nil => Indexed(out)
    case Cons(x, kids, rest) =>
      if x in nodes && !ItemsDecode(nodes[x]) then Conflict(InvalidActions)
      else match AddAll(DeclaredAt(nodes, x), out)
        case Conflict(code) => Conflict(code)
        case Indexed(own) =>
          match Fold(nodes, kids, own)
          case Conflict(code) => Conflict(code)
          case Indexed(below) => Fold(nodes, rest, below)
  }

  ghost function BuildBindings(nodes: Nodes): Bound
    requires IsTree(nodes)
  {
    Fold(nodes, Shape(nodes), map[])
  }

  // ---- the order-free meaning ----

  function AllDeclared(nodes: Nodes, f: Forest): seq<Binding> {
    match f
    case Nil => []
    case Cons(x, kids, rest) => DeclaredAt(nodes, x) + AllDeclared(nodes, kids) + AllDeclared(nodes, rest)
  }

  predicate KeysDistinct(bs: seq<Binding>) {
    forall i, j :: 0 <= i < j < |bs| ==> bs[i].key != bs[j].key
  }

  function KeySet(bs: seq<Binding>): set<string> {
    set b | b in bs :: b.key
  }

  /** No two items of the nodes `xs` share a key, and all items decode. */
  ghost predicate ConflictFree(nodes: Nodes, xs: set<Id>) {
    && (forall x :: x in xs && x in nodes ==> ItemsDecode(nodes[x]) && KeysDistinct(DeclaredAt(nodes, x)))
    && forall x, y :: x in xs && y in xs && x != y ==> KeySet(DeclaredAt(nodes, x)) !! KeySet(DeclaredAt(nodes, y))
  }

  /** `m` is the union of what the nodes `xs` declare. */
  ghost predicate UnionOf(nodes: Nodes, xs: set<Id>, m: KeyMap) {
    && (forall x, b :: x in xs && b in DeclaredAt(nodes, x) ==> b.key in m && m[b.key] == b)
    && forall k :: k in m ==> exists x :: x in xs && m[k] in DeclaredAt(nodes, x) && m[k].key == k
  }

  lemma ConcatKeys(a: seq<Binding>, b: seq<Binding>)
    ensures KeySet(a + b) == KeySet(a) + KeySet(b)
    ensures KeysDistinct(a + b) <==> KeysDistinct(a) && KeysDistinct(b) && KeySet(a) !! KeySet(b)
    ensures forall x :: x in a + b <==> x in a || x in b
  {
    var c := a + b;
    assert forall x :: x in c <==> x in a || x in b;
    if KeysDistinct(c) {
      assert forall i :: 0 <= i < |a| ==> c[i] == a[i];
      assert forall i :: 0 <= i < |b| ==> c[|a| + i] == b[i];
    }
    if KeysDistinct(a) && KeysDistinct(b) && KeySet(a) !! KeySet(b) {
      forall i, j | 0 <= i < j < |c| ensures c[i].key != c[j].key {
        if i < |a| && j >= |a| {
          assert c[i].key in KeySet(a) && c[j] == b[j - |a|] && c[j].key in KeySet(b);
        }
      }
    }
  }

  /** Adding items one by one succeeds exactly when no key repeats or is taken. */
  lemma {:induction false} AddAllMeaning(bs: seq<Binding>, out: KeyMap)
    ensures var r := AddAll(bs, out);
      if KeysDistinct(bs) && KeySet(bs) !! out.Keys
      then r.Indexed? && Extends(r.bindings, out, bs)
      else r == Conflict(BindingConflict)
    decreases |bs|
  {
    if bs != [] {
      var b, rest := bs[0], bs[1..];
      assert bs == [b] + rest;
      ConcatKeys([b], rest);
      assert KeySet([b]) == {b.key} && KeysDistinct([b]);
      hide KeysDistinct;
      hide KeySet;
      if b.key !in out {
        AddAllMeaning(rest, out[b.key := b]);
        var r := AddAll(rest, out[b.key := b]);
        if r.Indexed? && Extends(r.bindings, out[b.key := b], rest) { ExtendsCons(r.bindings, out, b, rest); }
        hide Extends;
      }
    }
  }

  /** `m` is `out` with the bindings `bs` added. */
  predicate Extends(m: KeyMap, out: KeyMap, bs: seq<Binding>) {
    && m.Keys == out.Keys + KeySet(bs)
    && (forall k :: k in out ==> k in m && m[k] == out[k])
    && forall b :: b in bs ==> b.key in m && m[b.key] == b
  }

  lemma ExtendsCons(m: KeyMap, out: KeyMap, b: Binding, rest: seq<Binding>)
    requires b.key !in out && Extends(m, out[b.key := b], rest)
    ensures Extends(m, out, [b] + rest)
  {
    ConcatKeys([b], rest);
    assert KeySet([b]) == {b.key};
  }

  lemma ExtendsTwice(m: KeyMap, mid: KeyMap, out: KeyMap, a: seq<Binding>, b: seq<Binding>)
    requires Extends(mid, out, a) && Extends(m, mid, b) && KeySet(a) !! KeySet(b)
    ensures Extends(m, out, a + b)
  {
    ConcatKeys(a, b);
  }

  // ---- the fold over a forest ----

  predicate AllDecode(nodes: Nodes, f: Forest) {
    match f
    case Nil => true
    case Cons(x, kids, rest) =>
      (x in nodes ==> ItemsDecode(nodes[x])) && AllDecode(nodes, kids) && AllDecode(nodes, rest)
  }

  /** The fold succeeds exactly when the listed keys are new and distinct, and then adds them all. */
  lemma {:induction false} FoldMeaning(nodes: Nodes, f: Forest, out: KeyMap)
    ensures var r, bs := Fold(nodes, f, out), AllDeclared(nodes, f);
      if AllDecode(nodes, f) && KeysDistinct(bs) && KeySet(bs) !! out.Keys
      then r.Indexed? && Extends(r.bindings, out, bs)
      else r.Conflict?
    decreases f
  {
    match f
    case Nil =>
    case Cons(x, kids, rest) =>
      var own, below, after := DeclaredAt(nodes, x), AllDeclared(nodes, kids), AllDeclared(nodes, rest);
      hide ItemsDecode;
      hide DeclaredAt;
      hide KeysDistinct;
      hide KeySet;
      hide AddAll;
      ConcatKeys(own, below);
      ConcatKeys(own + below, after);
      AddAllMeaning(own, out);
      var a := AddAll(own, out);
      if a.Indexed? {
        ExtendsKeys(a.bindings, out, own);
        FoldMeaning(nodes, kids, a.bindings);
        var b := Fold(nodes, kids, a.bindings);
        if b.Indexed? {
          ExtendsKeys(b.bindings, a.bindings, below);
          FoldMeaning(nodes, rest, b.bindings);
          var c := Fold(nodes, rest, b.bindings);
          if c.Indexed? {
            ExtendsTwice(b.bindings, a.bindings, out, own, below);
            ExtendsTwice(c.bindings, b.bindings, out, own + below, after);
          }
        }
      }
      hide Extends;
  }

  lemma ExtendsKeys(m: KeyMap, out: KeyMap, bs: seq<Binding>)
    requires Extends(m, out, bs)
    ensures m.Keys == out.Keys + KeySet(bs)
  {
  }

  lemma ConflictFreeSplit(nodes: Nodes, a: set<Id>, b: set<Id>)
    requires a !! b
    ensures ConflictFree(nodes, a + b) <==>
      && ConflictFree(nodes, a) && ConflictFree(nodes, b)
      && forall x, y :: x in a && y in b ==> KeySet(DeclaredAt(nodes, x)) !! KeySet(DeclaredAt(nodes, y))
  {
  }

  lemma {:induction false} AllDeclaredMembers(nodes: Nodes, f: Forest)
    ensures forall b :: b in AllDeclared(nodes, f) <==> exists x :: x in Labels(f) && b in DeclaredAt(nodes, x)
    decreases f
  {
    match f
    case Nil =>
    case Cons(x, kids, rest) =>
      AllDeclaredMembers(nodes, kids);
      AllDeclaredMembers(nodes, rest);
      ConcatKeys(DeclaredAt(nodes, x), AllDeclared(nodes, kids));
      ConcatKeys(DeclaredAt(nodes, x) + AllDeclared(nodes, kids), AllDeclared(nodes, rest));
      hide DeclaredAt;
  }

  lemma KeySetMembers(nodes: Nodes, f: Forest)
    ensures forall k :: k in KeySet(AllDeclared(nodes, f)) <==>
      exists x :: x in Labels(f) && k in KeySet(DeclaredAt(nodes, x))
  {
    AllDeclaredMembers(nodes, f);
    hide AllDeclared;
    hide DeclaredAt;
    hide Labels;
  }

  lemma DisjointKeys(nodes: Nodes, f: Forest, g: Forest)
    ensures KeySet(AllDeclared(nodes, f)) !! KeySet(AllDeclared(nodes, g)) <==>
      forall x, y :: x in Labels(f) && y in Labels(g) ==> KeySet(DeclaredAt(nodes, x)) !! KeySet(DeclaredAt(nodes, y))
  {
    KeySetMembers(nodes, f);
    KeySetMembers(nodes, g);
    hide KeySet;
    hide AllDeclared;
    hide DeclaredAt;
    hide Labels;
    if !(KeySet(AllDeclared(nodes, f)) !! KeySet(AllDeclared(nodes, g))) {
      var k :| k in KeySet(AllDeclared(nodes, f)) && k in KeySet(AllDeclared(nodes, g));
      var x :| x in Labels(f) && k in KeySet(DeclaredAt(nodes, x));
      var y :| y in Labels(g) && k in KeySet(DeclaredAt(nodes, y));
    } else {
      forall x, y | x in Labels(f) && y in Labels(g)
        ensures KeySet(DeclaredAt(nodes, x)) !! KeySet(DeclaredAt(nodes, y))
      {
        forall k | k in KeySet(DeclaredAt(nodes, x)) ensures k !in KeySet(DeclaredAt(nodes, y)) {
          assert k in KeySet(AllDeclared(nodes, f));
        }
      }
    }
  }

  /** On a tree, distinct listed keys is a statement about the set of its nodes. */
  lemma {:induction false} ListedConflicts(nodes: Nodes, f: Forest)
    requires Distinct(f) && Labels(f) <= nodes.Keys
    ensures AllDecode(nodes, f) && KeysDistinct(AllDeclared(nodes, f)) <==> ConflictFree(nodes, Labels(f))
    decreases f
  {
    match f
    case Nil =>
    case Cons(x, kids, rest) =>
      var leaf := Cons(x, Nil, Nil);
      ListedConflicts(nodes, kids);
      ListedConflicts(nodes, rest);
      assert AllDeclared(nodes, leaf) == DeclaredAt(nodes, x);
      ConcatKeys(DeclaredAt(nodes, x), AllDeclared(nodes, kids));
      ConcatKeys(DeclaredAt(nodes, x) + AllDeclared(nodes, kids), AllDeclared(nodes, rest));
      DisjointKeys(nodes, leaf, kids);
      DisjointKeys(nodes, leaf, rest);
      DisjointKeys(nodes, kids, rest);
      ConflictFreeSplit(nodes, {x}, Labels(kids));
      ConflictFreeSplit(nodes, {x} + Labels(kids), Labels(rest));
      OneConflictFree(nodes, x);
      assert Labels(leaf) == {x};
      hide KeySet;
      hide DeclaredAt;
      hide KeysDistinct;
      hide ItemsDecode;
      hide ConflictFree;
  }

  lemma OneConflictFree(nodes: Nodes, x: Id)
    requires x in nodes
    ensures ConflictFree(nodes, {x}) <==> ItemsDecode(nodes[x]) && KeysDistinct(DeclaredAt(nodes, x))
  {
  }

  /**
   The preorder fold accepts exactly the documents in which no key is declared twice, and its map is
   the union of what the nodes declare: neither depends on the order of the walk.
   */
  lemma BindingsMeaning(nodes: Nodes)
    requires IsTree(nodes)
    ensures var r := BuildBindings(nodes);
      if ConflictFree(nodes, nodes.Keys) then r.Indexed? && UnionOf(nodes, nodes.Keys, r.bindings) else r.Conflict?
  {
    var f := Shape(nodes);
    assert Labels(f) == nodes.Keys && Distinct(f);
    hide IsTree;
    FoldMeaning(nodes, f, map[]);
    ListedConflicts(nodes, f);
    AllDeclaredMembers(nodes, f);
    var r, bs := BuildBindings(nodes), AllDeclared(nodes, f);
    hide Fold;
    hide AllDeclared;
    hide DeclaredAt;
    hide Labels;
    hide ConflictFree;
    hide KeysDistinct;
    hide AllDecode;
    if ConflictFree(nodes, nodes.Keys) {
      forall k | k in r.bindings
        ensures exists x :: x in nodes.Keys && r.bindings[k] in DeclaredAt(nodes, x) && r.bindings[k].key == k
      {
        var b :| b in bs && b.key == k;
        assert r.bindings[k] == b;
      }
    }
  }

  /** Two maps that are the union of the same declarations are equal. */
  lemma UnionUnique(nodes: Nodes, nodes': Nodes, xs: set<Id>, m: KeyMap, m': KeyMap)
    requires UnionOf(nodes, xs, m) && UnionOf(nodes', xs, m')
    requires forall x :: x in xs ==> DeclaredAt(nodes, x) == DeclaredAt(nodes', x)
    ensures m == m'
  {
    hide DeclaredAt;
    forall k | k in m ensures k in m' && m'[k] == m[k] {
      var x :| x in xs && m[k] in DeclaredAt(nodes, x) && m[k].key == k;
      assert m[k] in DeclaredAt(nodes', x);
    }
    forall k | k in m' ensures k in m {
      var x :| x in xs && m'[k] in DeclaredAt(nodes', x) && m'[k].key == k;
      assert m'[k] in DeclaredAt(nodes, x);
    }
  }

  /** Trees with the same nodes, items and types bind alike, whatever their shape. */
  lemma BindingsFollowContent(nodes: Nodes, nodes': Nodes)
    requires IsTree(nodes) && IsTree(nodes') && nodes'.Keys == nodes.Keys
    requires forall x :: x in nodes ==> nodes'[x].kind == nodes[x].kind && nodes'[x].props == nodes[x].props
    ensures BuildBindings(nodes').Indexed? <==> BuildBindings(nodes).Indexed?
    ensures BuildBindings(nodes).Indexed? ==> BuildBindings(nodes') == BuildBindings(nodes)
  {
    hide *;
    BindingsMeaning(nodes);
    BindingsMeaning(nodes');
    SameDeclared(nodes, nodes');
    SameConflicts(nodes, nodes');
    if BuildBindings(nodes).Indexed? {
      UnionUnique(nodes, nodes', nodes.Keys, BuildBindings(nodes).bindings, BuildBindings(nodes').bindings);
    }
  }

  lemma SameDeclared(nodes: Nodes, nodes': Nodes)
    requires nodes'.Keys == nodes.Keys
    requires forall x :: x in nodes ==> nodes'[x].kind == nodes[x].kind && nodes'[x].props == nodes[x].props
    ensures forall x :: x in nodes ==> DeclaredAt(nodes, x) == DeclaredAt(nodes', x)
    ensures forall x :: x in nodes ==> (ItemsDecode(nodes[x]) <==> ItemsDecode(nodes'[x]))
  {
  }

  lemma SameConflicts(nodes: Nodes, nodes': Nodes)
    requires nodes'.Keys == nodes.Keys
    requires forall x :: x in nodes ==> DeclaredAt(nodes, x) == DeclaredAt(nodes', x)
    requires forall x :: x in nodes ==> (ItemsDecode(nodes[x]) <==> ItemsDecode(nodes'[x]))
    ensures ConflictFree(nodes, nodes.Keys) <==> ConflictFree(nodes', nodes'.Keys)
  {
    hide DeclaredAt;
    hide ItemsDecode;
    hide KeysDistinct;
    hide KeySet;
  }

  // ---- the walk ----

  /** The items of one node; a key that is taken is a conflict. */
  method AddItems(bs: seq<Binding>, out: KeyMap) returns (r: Bound)
    ensures r == AddAll(bs, out)
  {
    var m := out;
    for i := 0 to |bs|
      invariant AddAll(bs[i..], m) == AddAll(bs, out)
    {
      assert bs[i..][0] == bs[i] && bs[i..][1..] == bs[i + 1..];
      if bs[i].key in m { return Conflict(BindingConflict); }
      m := m[bs[i].key := bs[i]];
    }
    assert bs[|bs|..] == [];
    r := Indexed(m);
  }

  /** The nodes of a document in tree order, adding the items of each to `out`. */
  method WalkBindings(nodes: Nodes, id: Id, out: KeyMap, ghost kids: Forest, ghost parent: Id) returns (r: Bound)
    requires Encodes(nodes, Cons(id, kids, Nil), parent)
    ensures r == Fold(nodes, Cons(id, kids, Nil), out)
    decreases kids
  {
    FoldNode(nodes, id, kids, parent, out);
    hide *;
    var n := nodes[id];
    var m := out;
    if n.kind.Actions? {
      if !ItemsDecode(n) { return Conflict(InvalidActions); }
      r := AddItems(Declared(id, n), out);
      if r.Conflict? { return; }
      m := r.bindings;
    }
    ghost var left := kids;
    assert n.children[0..] == n.children;
    for i := 0 to |n.children|
      invariant Ahead(nodes, id, kids, left, n.children[i..])
      invariant Fold(nodes, left, m) == Fold(nodes, Cons(id, kids, Nil), out)
    {
      assert n.children[i..] == [n.children[i]] + n.children[i + 1..];
      AheadStep(nodes, id, kids, left, n.children[i], n.children[i + 1..]);
      FoldStep(nodes, left, m);
      r := WalkBindings(nodes, n.children[i], m, left.kids, id);
      if r.Conflict? { return; }
      m := r.bindings;
      left := left.rest;
    }
    assert n.children[|n.children|..] == [];
    NilFold(nodes, id, kids, left, m);
    return Indexed(m);
  }

  /** What the walk does at a node before it goes on to the children. */
  lemma FoldNode(nodes: Nodes, id: Id, kids: Forest, parent: Id, out: KeyMap)
    requires Encodes(nodes, Cons(id, kids, Nil), parent)
    ensures id in nodes && Ahead(nodes, id, kids, kids, nodes[id].children)
    ensures var whole, n := Fold(nodes, Cons(id, kids, Nil), out), nodes[id];
      if !n.kind.Actions? then whole == Fold(nodes, kids, out)
      else if !ItemsDecode(n) then whole == Conflict(InvalidActions)
      else match AddAll(Declared(id, n), out)
        case Conflict(code) => whole == Conflict(code)
        case Indexed(own) => whole == Fold(nodes, kids, own)
  {
    assert !nodes[id].kind.Actions? ==> ItemsDecode(nodes[id]) && Declared(id, nodes[id]) == [];
    hide ItemsDecode;
    hide Declared;
  }

  lemma FoldStep(nodes: Nodes, f: Forest, out: KeyMap)
    requires f.Cons?
    ensures Fold(nodes, f, out) ==
      match Fold(nodes, Cons(f.id, f.kids, Nil), out)
      case Conflict(code) => Conflict(code)
      case Indexed(m) => Fold(nodes, f.rest, m)
  {
  }

  lemma NilFold(nodes: Nodes, id: Id, kids: Forest, left: Forest, m: KeyMap)
    requires Ahead(nodes, id, kids, left, [])
    ensures Fold(nodes, left, m) == Indexed(m)
  {
  }

  method BindKeys(d: Document) returns (r: Bound)
    requires IsTree(d.nodes)
    ensures r == BuildBindings(d.nodes)
  {
    r := WalkBindings(d.nodes, ROOT, map[], Shape(d.nodes).kids, NO_PARENT);
  }
}

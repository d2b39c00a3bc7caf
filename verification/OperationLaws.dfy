/** What an accepted upsert, patch or text leaves in the document, field by field and node by node. */
module OperationLaws {
  import opened Forests
  import opened Protocol
  import opened Documents
  import opened Sums
  import opened Reducer
  import opened TreeSteps
  import opened Preservation
  import opened UpsertLaws
  import opened ProjectionLaws
  import opened RelocationLimits
  import DocumentLaws

  // ---- properties ----

  /** The properties a message states; `force` is a one-time instruction and none of them. */
  function Sent(raw: PropsArg): Props { if raw.Fields? then raw.fields - {"force"} else map[] }

  /** A sent property has the sent value, any other one the value it has in `base`. */
  predicate Overlaid(base: Props, raw: PropsArg, p: Props) {
    && p.Keys == base.Keys + Sent(raw).Keys
    && forall k :: k in p ==> p[k] == if k in Sent(raw) then Sent(raw)[k] else base[k]
  }

  lemma NormalizedOverlay(t: NodeType, raw: PropsArg)
    requires NormalizeProps(t, raw, true).Accepted?
    ensures Overlaid(Defaults(t), raw, NormalizeProps(t, raw, true).props)
  {
    hide ValidNormalized;
    hide Defaults;
    NoStrayForce(t, raw, true);
  }

  /** Only an input takes `force`. */
  lemma NoStrayForce(t: NodeType, raw: PropsArg, full: bool)
    requires NormalizeProps(t, raw, full).Accepted?
    ensures raw.Fields? && "force" in raw.fields ==> t.Input?
    ensures !raw.NotObject?
  {
    hide ValidNormalized;
    hide Defaults;
  }

  lemma MergedOverlay(t: NodeType, current: Props, raw: PropsArg)
    requires MergeNormalized(t, current, raw).Accepted?
    ensures Overlaid(current, raw, MergeNormalized(t, current, raw).props)
  {
    hide ValidNormalized;
    hide Defaults;
    NoStrayForce(t, raw, false);
  }

  /** The markers say exactly which properties were stated. */
  predicate MarksExactly(explicit: Option<map<string, bool>>, keys: set<string>) {
    explicit.Some? && explicit.value.Keys == keys && forall k :: k in keys ==> explicit.value[k]
  }

  // ---- placement ----

  /** `x` stands at the asked index of the list `s`, or after it when no index of the list is asked for. */
  predicate Placed(s: seq<Id>, x: Id, index: Option<int>, t: seq<Id>) {
    if index.Some? && 0 <= index.value < |s|
    then t == s[..index.value] + [x] + s[index.value..]
    else t == s + [x]
  }

  lemma InsertedAt(s: seq<Id>, x: Id, index: Option<int>)
    ensures Placed(s, x, index, InsertChild(s, x, index))
  {
    assert s[..|s|] == s && s[|s|..] == [];
    assert s + [x] + [] == s + [x];
  }

  // ---- upsert of a new node ----

  /** The container a new node goes to. */
  function Container(op: Operation): Id { if op.parent == "" then ROOT else op.parent }

  lemma FreshNodes(d: Document, op: Operation, props: Props, force: bool, limits: Limits)
    requires op.id !in d.nodes && UpsertFresh(d, op, props, force, limits).Applied?
    ensures var c, next := Container(op), UpsertFresh(d, op, props, force, limits).doc;
      && c in d.nodes && d.nodes[c].kind.Container() && c != op.id
      && next.totalTextBytes == d.totalTextBytes && next.nodes.Keys == d.nodes.Keys + {op.id}
      && next.nodes[op.id] == Node(op.id, op.kind, c, [], props, Some(Marks(ExplicitKeys(op.props))), "")
      && next.nodes[c] == d.nodes[c].(children := InsertChild(d.nodes[c].children, op.id, op.index))
      && forall y :: y in d.nodes && y != c ==> next.nodes[y] == d.nodes[y]
  {
    hide InsertChild;
    hide Marks;
    hide ExplicitKeys;
    hide TableLimits;
  }

  lemma MarksAre(raw: PropsArg)
    ensures MarksExactly(Some(Marks(ExplicitKeys(raw))), Sent(raw).Keys)
  {
  }

  /**
   An accepted upsert of a new node makes a leaf with the sent properties and the schema's defaults
   for the rest, under its container at the asked place, or last; no other node changes.
   */
  lemma NewNodeStands(d: Document, op: Operation, limits: Limits)
    requires ReadyToMove(d.nodes) && op.op == OpUpsert && op.id !in d.nodes && Apply(d, op, limits).Applied?
    ensures var c, next := Container(op), Apply(d, op, limits).doc;
      && c in d.nodes && d.nodes[c].kind.Container() && c != op.id
      && next.nodes.Keys == d.nodes.Keys + {op.id}
      && next.revision == d.revision + 1 && next.totalTextBytes == d.totalTextBytes
      && var n := next.nodes[op.id];
      && n.id == op.id && n.kind == op.kind && n.parent == c && n.children == [] && n.text == ""
      && Overlaid(Defaults(op.kind), op.props, n.props) && MarksExactly(n.explicit, Sent(op.props).Keys)
      && Placed(d.nodes[c].children, op.id, op.index, next.nodes[c].children)
      && next.nodes[c] == d.nodes[c].(children := next.nodes[c].children)
      && forall y :: y in d.nodes && y != c ==> next.nodes[y] == d.nodes[y]
  {
    hide *;
    if ValidateOperation(op, limits).Some? {
      DocumentLaws.InvalidRefused(d, op, limits);
    } else {
      ApplyCases(d, op, limits);
      FreshDraft(d, op, limits);
      var a := NormalizeProps(op.kind, op.props, true);
      FreshChanges(d, op, a.props, a.force, limits);
      FreshNodes(d, op, a.props, a.force, limits);
      NormalizedOverlay(op.kind, op.props);
      MarksAre(op.props);
      InsertedAt(d.nodes[Container(op)].children, op.id, op.index);
    }
  }

  // ---- upsert of a stored node ----

  /** The parent a stored node has afterwards. */
  function ParentAsked(n: Node, op: Operation): Id { if op.parent == "" then n.parent else op.parent }

  /** It names another parent, or an index. */
  predicate MoveAsked(n: Node, op: Operation) { ParentAsked(n, op) != n.parent || op.index.Some? }

  lemma StoredWritten(d: Document, op: Operation, props: Props, force: bool, limits: Limits)
    requires ReadyToMove(d.nodes) && op.id in d.nodes && op.id != ROOT
    requires UpsertExisting(d, op, props, force, limits).Applied?
    ensures IsTree(d.nodes)
    ensures var n, next := d.nodes[op.id], UpsertExisting(d, op, props, force, limits).doc;
      var c := ParentAsked(n, op);
      && (MoveAsked(n, op) ==>
            c in d.nodes && c !in Subtree(Shape(d.nodes), op.id) && d.nodes[c].kind.Container())
      && var moved := if MoveAsked(n, op) then MoveNode(d.nodes, op.id, c, op.index) else d.nodes;
         && op.id in moved
         && next == d.(nodes := moved[op.id := Rewritten(moved[op.id], op, props)],
                       totalTextBytes := d.totalTextBytes - if n.kind != op.kind then |n.text| else 0)
  {
    hide IsTree;
    hide Subtree;
    hide TableLimits;
    hide Rewritten;
    hide Relinked;
  }

  lemma RewrittenFields(n: Node, op: Operation, props: Props)
    ensures Rewritten(n, op, props) ==
      Node(n.id, op.kind, n.parent, n.children, props, Some(Marks(ExplicitKeys(op.props))),
           if n.kind == op.kind then n.text else "")
  {
    hide Marks;
    hide ExplicitKeys;
  }

  /** Where a move leaves the child lists. */
  ghost predicate Rehung(nodes: Nodes, next: Nodes, x: Id, c: Id, index: Option<int>)
    requires next.Keys == nodes.Keys && x in nodes && c in nodes && nodes[x].parent in nodes
  {
    var from := nodes[x].parent;
    && Placed(Without(nodes[c].children, x), x, index, next[c].children)
    && (from != c ==> next[from].children == Without(nodes[from].children, x))
    && next[c] == nodes[c].(children := next[c].children)
    && next[from] == nodes[from].(children := next[from].children)
  }

  lemma MoveRehangs(nodes: Nodes, x: Id, c: Id, index: Option<int>)
    requires IsTree(nodes) && x in nodes && x != ROOT && c in nodes && c !in Subtree(Shape(nodes), x)
    ensures nodes[x].parent in nodes && c != x && nodes[x].parent != x
    ensures var next := MoveNode(nodes, x, c, index);
      && next.Keys == nodes.Keys && next[x] == nodes[x].(parent := c)
      && Rehung(nodes, next, x, c, index)
      && forall y :: y in nodes && y !in {x, c, nodes[x].parent} ==> next[y] == nodes[y]
  {
    hide *;
    ParentStored(nodes, x);
    OutsideItself(nodes, x, c);
    MoveFrame(nodes, x, c, index);
    StoredIds(nodes);
    MoveAt(nodes, x, c, index, c);
    MoveAt(nodes, x, c, index, nodes[x].parent);
    MovedList(nodes, x, c, index);
    InsertedAt(Without(nodes[c].children, x), x, index);
    RelinkedRest(nodes[c], x, c, index);
    RelinkedRest(nodes[nodes[x].parent], x, c, index);
    ItRehangs(nodes, MoveNode(nodes, x, c, index), x, c, index);
  }

  lemma RelinkedRest(n: Node, x: Id, p: Id, index: Option<int>)
    requires n.id != x
    ensures var m := Relinked(n, x, p, index); m == n.(children := m.children)
  {
    hide Without;
    hide InsertChild;
  }

  lemma ItRehangs(nodes: Nodes, next: Nodes, x: Id, c: Id, index: Option<int>)
    requires next.Keys == nodes.Keys && x in nodes && c in nodes && nodes[x].parent in nodes
    requires Placed(Without(nodes[c].children, x), x, index, next[c].children)
    requires nodes[x].parent != c ==> next[nodes[x].parent].children == Without(nodes[nodes[x].parent].children, x)
    requires next[c] == nodes[c].(children := next[c].children)
    requires next[nodes[x].parent] == nodes[nodes[x].parent].(children := next[nodes[x].parent].children)
    ensures Rehung(nodes, next, x, c, index)
  {
    hide Placed;
    hide Without;
  }

  /**
   An accepted upsert of a stored node gives it the sent type, the sent properties and the schema's
   defaults for the rest; it keeps its children, and its text if the type stays. Asked to move, it
   stands under the asked parent at the asked place among the other children, or last; no other node
   changes, but for the two child lists.
   */
  lemma StoredNodeStands(d: Document, op: Operation, limits: Limits)
    requires ReadyToMove(d.nodes) && op.op == OpUpsert && op.id in d.nodes && Apply(d, op, limits).Applied?
    ensures op.id != ROOT && d.nodes[op.id].parent in d.nodes
    ensures var n, next := d.nodes[op.id], Apply(d, op, limits).doc;
      var c := ParentAsked(n, op);
      && next.nodes.Keys == d.nodes.Keys && c in d.nodes
      && next.totalTextBytes == d.totalTextBytes - (if n.kind != op.kind then |n.text| else 0)
      && var m := next.nodes[op.id];
      && m.id == n.id && m.kind == op.kind && m.parent == c && m.children == n.children
      && m.text == (if n.kind == op.kind then n.text else "")
      && Overlaid(Defaults(op.kind), op.props, m.props) && MarksExactly(m.explicit, Sent(op.props).Keys)
      && (if MoveAsked(n, op) then Rehung(d.nodes, next.nodes, op.id, c, op.index)
          else forall y :: y in d.nodes && y != op.id ==> next.nodes[y] == d.nodes[y])
      && forall y :: y in d.nodes && y !in {op.id, c, n.parent} ==> next.nodes[y] == d.nodes[y]
  {
    hide *;
    ReadyTree(d.nodes);
    if ValidateOperation(op, limits).Some? {
      DocumentLaws.InvalidRefused(d, op, limits);
    } else {
      ApplyCases(d, op, limits);
      StoredDraft(d, op, limits);
      var a := NormalizeProps(op.kind, op.props, true);
      var n := d.nodes[op.id];
      var c := ParentAsked(n, op);
      ParentStored(d.nodes, op.id);
      StoredWritten(d, op, a.props, a.force, limits);
      NormalizedOverlay(op.kind, op.props);
      MarksAre(op.props);
      MoveAskedIs(n, op);
      var moved := if MoveAsked(n, op) then MoveNode(d.nodes, op.id, c, op.index) else d.nodes;
      RewrittenFields(moved[op.id], op, a.props);
      if MoveAsked(n, op) {
        MoveRehangs(d.nodes, op.id, c, op.index);
        RehungElsewhere(d.nodes, moved, op.id, c, op.index, Rewritten(moved[op.id], op, a.props));
      }
    }
  }

  lemma MoveAskedIs(n: Node, op: Operation)
    ensures MoveAsked(n, op) <==> ParentAsked(n, op) != n.parent || op.index.Some?
  {
  }

  lemma RehungElsewhere(nodes: Nodes, next: Nodes, x: Id, c: Id, index: Option<int>, m: Node)
    requires next.Keys == nodes.Keys && x in nodes && c in nodes && nodes[x].parent in nodes
    requires c != x && nodes[x].parent != x && Rehung(nodes, next, x, c, index)
    ensures Rehung(nodes, next[x := m], x, c, index)
  {
    hide Placed;
    hide Without;
  }

  lemma StoredDraft(d: Document, op: Operation, limits: Limits)
    requires ReadyToMove(d.nodes) && op.op == OpUpsert && op.id in d.nodes && Draft(d, op, limits).Applied?
    ensures op.id != ROOT
    ensures var a := NormalizeProps(op.kind, op.props, true);
      a.Accepted? && Draft(d, op, limits) == UpsertExisting(d, op, a.props, a.force, limits)
  {
    hide NormalizeProps;
    hide UpsertExisting;
    hide ReadyToMove;
  }

  // ---- patches ----

  lemma PatchWritten(d: Document, op: Operation, limits: Limits)
    requires PatchProps(d, op, limits).Applied?
    ensures op.id in d.nodes
    ensures var n, next := d.nodes[op.id], PatchProps(d, op, limits).doc;
      var a := MergeNormalized(n.kind, n.props, op.props);
      && a.Accepted? && (n.explicit.None? ==> ExplicitKeys(op.props) == {})
      && var explicit := if n.explicit.None? then None else Some(n.explicit.value + Marks(ExplicitKeys(op.props)));
         next == d.(nodes := d.nodes[op.id := n.(props := a.props, explicit := explicit)])
  {
    hide MergeNormalized;
    hide TableLimits;
    hide Marks;
    hide ExplicitKeys;
    assert d.nodes[op.id := d.nodes[op.id]] == d.nodes;
  }

  /** The old markers and those of the sent properties. */
  predicate MarksMore(was: Option<map<string, bool>>, keys: set<string>, now: Option<map<string, bool>>) {
    if was.None? then keys == {} && now.None?
    else
      && now.Some? && now.value.Keys == was.value.Keys + keys
      && forall k :: k in now.value ==> now.value[k] == if k in keys then true else was.value[k]
  }

  lemma MarksAdded(was: Option<map<string, bool>>, raw: PropsArg)
    ensures ExplicitKeys(raw) == Sent(raw).Keys
    ensures was.Some? ==> MarksMore(was, Sent(raw).Keys, Some(was.value + Marks(ExplicitKeys(raw))))
  {
  }

  lemma PatchDraft(d: Document, op: Operation, limits: Limits)
    requires ReadyToMove(d.nodes) && op.op == OpProps
    ensures Draft(d, op, limits) == PatchProps(d, op, limits)
  {
    hide PatchProps;
    hide IsTree;
  }

  /**
   An accepted patch takes effect: each sent property has the sent value, each other one keeps its own,
   and nothing else changes but the markers. (The root has no markers, so its patch sends nothing.)
   */
  lemma PatchTakesEffect(d: Document, op: Operation, limits: Limits)
    requires ReadyToMove(d.nodes) && op.op == OpProps && Apply(d, op, limits).Applied?
    ensures op.id in d.nodes
    ensures var n, next := d.nodes[op.id], Apply(d, op, limits).doc;
      && next.nodes.Keys == d.nodes.Keys && next.totalTextBytes == d.totalTextBytes
      && var m := next.nodes[op.id];
      && Overlaid(n.props, op.props, m.props) && MarksMore(n.explicit, Sent(op.props).Keys, m.explicit)
      && m == n.(props := m.props, explicit := m.explicit)
      && forall y :: y in d.nodes && y != op.id ==> next.nodes[y] == d.nodes[y]
  {
    hide *;
    if ValidateOperation(op, limits).Some? {
      DocumentLaws.InvalidRefused(d, op, limits);
    } else {
      ApplyCases(d, op, limits);
      PatchDraft(d, op, limits);
      PatchWritten(d, op, limits);
      var n := d.nodes[op.id];
      MergedOverlay(n.kind, n.props, op.props);
      MarksAdded(n.explicit, op.props);
      NoMarks(n.explicit, Sent(op.props).Keys);
    }
  }

  lemma NoMarks(was: Option<map<string, bool>>, keys: set<string>)
    requires was.None? ==> keys == {}
    ensures was.None? ==> MarksMore(was, keys, None)
  {
  }

  // ---- text ----

  /** Text adds its own length to the bytes of the document. */
  lemma AppendedBytes(nodes: Nodes, x: Id, more: string)
    requires x in nodes
    ensures DocumentBytes(nodes[x := nodes[x].(text := nodes[x].text + more)]) == DocumentBytes(nodes) + |more|
  {
    var next := nodes[x := nodes[x].(text := nodes[x].text + more)];
    assert next.Keys == nodes.Keys;
    SumTake(nodes.Keys, ByteWeight(nodes), x);
    SumTake(nodes.Keys, ByteWeight(next), x);
    SumEq(nodes.Keys - {x}, ByteWeight(nodes), ByteWeight(next));
  }

  /** There is room for more text at a node, in the whole document and in its bytes. */
  ghost predicate TextFits(d: Document, x: Id, more: string, limits: Limits)
    requires x in d.nodes
  {
    && |d.nodes[x].text| + |more| <= limits.maxTextBytesPerNode
    && d.totalTextBytes + |more| <= limits.maxTotalTextBytes
    && DocumentBytes(d.nodes) + |more| <= limits.maxDocumentBytes
  }

  lemma TextCases(d: Document, op: Operation, limits: Limits)
    requires ReadyToMove(d.nodes) && op.op == OpText && op.text != ""
    ensures var r := Draft(d, op, limits);
      && (r.Applied? <==>
            && op.id in d.nodes && (d.nodes[op.id].kind.Text? || d.nodes[op.id].kind.Viewport?)
            && |d.nodes[op.id].text| + |op.text| <= limits.maxTextBytesPerNode
            && d.totalTextBytes + |op.text| <= limits.maxTotalTextBytes)
      && (r.Applied? ==>
            && r.eff.changed
            && r.doc == d.(nodes := d.nodes[op.id := d.nodes[op.id].(text := d.nodes[op.id].text + op.text)],
                           totalTextBytes := d.totalTextBytes + |op.text|))
  {
    hide IsTree;
  }

  /** With a longer text at one node nothing but the two byte totals can break a limit. */
  lemma AppendedValid(d: Document, x: Id, more: string, limits: Limits)
    requires Valid(d, limits) && x in d.nodes
    ensures var next := d.(nodes := d.nodes[x := d.nodes[x].(text := d.nodes[x].text + more)],
                           totalTextBytes := d.totalTextBytes + |more|);
      Valid(next, limits) <==>
        && d.totalTextBytes + |more| <= limits.maxTotalTextBytes
        && DocumentBytes(d.nodes) + |more| <= limits.maxDocumentBytes
  {
    hide *;
    var m := d.nodes[x].(text := d.nodes[x].text + more);
    WellFormedTree(d, limits);
    AppendedBytes(d.nodes, x, more);
    TextUpdated(d.nodes, x, m);
    SameNodeOk(d.nodes, x, m);
    ContentChanged(d.nodes, x, m);
    SameWidths(d.nodes, x, m, limits);
    ValidIs(d, limits);
    ValidIs(d.(nodes := d.nodes[x := m], totalTextBytes := d.totalTextBytes + |more|), limits);
  }

  lemma WellFormedTree(d: Document, limits: Limits)
    requires Valid(d, limits)
    ensures IsTree(d.nodes)
  {
    hide IsTree;
  }

  lemma SameNodeOk(nodes: Nodes, x: Id, m: Node)
    requires IsTree(nodes) && x in nodes && m == nodes[x].(text := m.text)
    ensures SameLinks(nodes[x], m) && NodeOk(m) && (x == ROOT ==> m.kind == Box)
  {
    OkAt(nodes, x);
  }

  lemma SameWidths(nodes: Nodes, x: Id, m: Node, limits: Limits)
    requires x in nodes && m.children == nodes[x].children
    ensures ChildrenFit(nodes[x := m], nodes[x := m].Keys, limits) <==> ChildrenFit(nodes, nodes.Keys, limits)
  {
    var next := nodes[x := m];
    assert next.Keys == nodes.Keys;
    assert forall y :: y in nodes ==> |next[y].children| == |nodes[y].children|;
  }

  /**
   Text is accepted exactly on a text or viewport node with room for it, and is then appended to the
   node's text, and nothing else changes. The empty text is accepted on such a node always.
   */
  lemma TextExactly(d: Document, op: Operation, limits: Limits)
    requires Sound(d, limits) && ReadyToMove(d.nodes)
    requires op.op == OpText && ValidateOperation(op, limits).None?
    ensures var r := Apply(d, op, limits);
      && (r.Applied? <==>
            && op.id in d.nodes && (d.nodes[op.id].kind.Text? || d.nodes[op.id].kind.Viewport?)
            && (op.text == "" || TextFits(d, op.id, op.text, limits)))
      && (r.Applied? && op.text != "" ==>
            r.doc == Document(d.revision + 1,
                              d.nodes[op.id := d.nodes[op.id].(text := d.nodes[op.id].text + op.text)],
                              d.totalTextBytes + |op.text|))
      && (r.Applied? && op.text == "" ==> r.doc == d)
  {
    hide *;
    SoundReady(d, limits);
    ApplyCases(d, op, limits);
    if op.text == "" {
      NoText(d, op, limits);
    } else {
      TextCases(d, op, limits);
      if op.id in d.nodes {
        AppendedValid(d, op.id, op.text, limits);
        FitsIs(d, op.id, op.text, limits);
      }
    }
  }

  lemma NoText(d: Document, op: Operation, limits: Limits)
    requires ReadyToMove(d.nodes) && op.op == OpText && op.text == ""
    ensures var r := Draft(d, op, limits);
      && (r.Applied? <==> op.id in d.nodes && (d.nodes[op.id].kind.Text? || d.nodes[op.id].kind.Viewport?))
      && (r.Applied? ==> r.doc == d && !r.eff.changed)
  {
    hide IsTree;
  }

  lemma FitsIs(d: Document, x: Id, more: string, limits: Limits)
    requires x in d.nodes
    ensures TextFits(d, x, more, limits) <==>
      && |d.nodes[x].text| + |more| <= limits.maxTextBytesPerNode
      && d.totalTextBytes + |more| <= limits.maxTotalTextBytes
      && DocumentBytes(d.nodes) + |more| <= limits.maxDocumentBytes
  {
    hide DocumentBytes;
  }

  // ---- refusals ----

  /** The container an upsert needs: the asked one, or that of a node asked to move, or that of a new node. */
  ghost predicate NeedsParent(d: Document, op: Operation, c: Id) {
    && op.op == OpUpsert && op.id != ROOT
    && if op.id in d.nodes then MoveAsked(d.nodes[op.id], op) && c == ParentAsked(d.nodes[op.id], op)
       else c == Container(op)
  }

  /**
   Each structural refusal has its one reason: an unknown node, the root, an unknown parent, a parent
   inside the moved subtree, text on a node that takes none.
   */
  lemma RefusalsNamed(d: Document, op: Operation, limits: Limits)
    requires ReadyToMove(d.nodes) && IsTree(d.nodes)
    ensures var r, valid := Apply(d, op, limits), ValidateOperation(op, limits).None?;
      && (r == Failed(NodeNotFound) <==>
            && valid && op.id !in d.nodes
            && (op.op == OpProps || op.op == OpText || op.op == OpFocus || (op.op == OpRemove && op.id != ROOT)))
      && (r == Failed(RootImmutable) <==> valid && op.id == ROOT && (op.op == OpUpsert || op.op == OpRemove))
      && (r == Failed(ParentNotFound) <==> valid && exists c :: NeedsParent(d, op, c) && c !in d.nodes)
      && (r == Failed(Cycle) <==>
            && valid && op.id in d.nodes
            && exists c :: NeedsParent(d, op, c) && c in d.nodes && c in Subtree(Shape(d.nodes), op.id))
      && (r == Failed(TextUnsupported) <==>
            && valid && op.op == OpText && op.id in d.nodes
            && !d.nodes[op.id].kind.Text? && !d.nodes[op.id].kind.Viewport?)
  {
    ValidationCodes(op, limits);
    NeedsOne(d, op);
    hide *;
    if ValidateOperation(op, limits).Some? {
      DocumentLaws.InvalidRefused(d, op, limits);
    } else {
      ApplyCases(d, op, limits);
      DraftRefusals(d, op, limits);
    }
  }

  lemma ValidationCodes(op: Operation, limits: Limits)
    ensures ValidateOperation(op, limits).Some? ==>
      var code := ValidateOperation(op, limits).value;
      && code != NodeNotFound && code != RootImmutable && code != ParentNotFound && code != Cycle
      && code != TextUnsupported
  {
    SchemaCodes(op.kind, op.props, true);
    hide NormalizeProps;
  }

  lemma SchemaCodes(t: NodeType, raw: PropsArg, full: bool)
    ensures var a := NormalizeProps(t, raw, full); a.Rejected? ==> a.code == UnknownType || a.code == InvalidProps
  {
    hide ValidNormalized;
    hide Defaults;
    hide AllowedProps;
  }

  lemma MergeCodes(t: NodeType, current: Props, raw: PropsArg)
    ensures var a := MergeNormalized(t, current, raw); a.Rejected? ==> a.code == UnknownType || a.code == InvalidProps
  {
    SchemaCodes(t, raw, false);
    hide ValidNormalized;
    hide NormalizeProps;
  }

  lemma NeedsOne(d: Document, op: Operation)
    ensures forall c :: NeedsParent(d, op, c) <==>
      && op.op == OpUpsert && op.id != ROOT
      && if op.id in d.nodes then MoveAsked(d.nodes[op.id], op) && c == ParentAsked(d.nodes[op.id], op)
         else c == Container(op)
  {
    hide MoveAsked;
    hide ParentAsked;
    hide Container;
  }

  lemma DraftRefusals(d: Document, op: Operation, limits: Limits)
    requires ReadyToMove(d.nodes) && IsTree(d.nodes) && ValidateOperation(op, limits).None?
    ensures var r := Draft(d, op, limits);
      && (r == Failed(NodeNotFound) <==>
            && op.id !in d.nodes
            && (op.op == OpProps || op.op == OpText || op.op == OpFocus || (op.op == OpRemove && op.id != ROOT)))
      && (r == Failed(RootImmutable) <==> op.id == ROOT && (op.op == OpUpsert || op.op == OpRemove))
      && (r == Failed(ParentNotFound) <==> exists c :: NeedsParent(d, op, c) && c !in d.nodes)
      && (r == Failed(Cycle) <==>
            && op.id in d.nodes
            && exists c :: NeedsParent(d, op, c) && c in d.nodes && c in Subtree(Shape(d.nodes), op.id))
      && (r == Failed(TextUnsupported) <==>
            op.op == OpText && op.id in d.nodes && !d.nodes[op.id].kind.Text? && !d.nodes[op.id].kind.Viewport?)
  {
    hide *;
    NeedsOne(d, op);
    if op.op == OpUpsert {
      UpsertRefusals(d, op, limits);
    } else if op.op == OpProps {
      PatchDraft(d, op, limits);
      PatchRefusals(d, op, limits);
    } else {
      OtherRefusals(d, op, limits);
    }
  }

  lemma PatchRefusals(d: Document, op: Operation, limits: Limits)
    ensures var r := PatchProps(d, op, limits);
      && (r == Failed(NodeNotFound) <==> op.id !in d.nodes)
      && (r.Failed? ==> r.code != RootImmutable && r.code != ParentNotFound && r.code != Cycle
                        && r.code != TextUnsupported)
  {
    if op.id in d.nodes { MergeCodes(d.nodes[op.id].kind, d.nodes[op.id].props, op.props); }
    hide MergeNormalized;
    hide Marks;
    hide ExplicitKeys;
  }

  lemma OtherRefusals(d: Document, op: Operation, limits: Limits)
    requires ReadyToMove(d.nodes) && op.op != OpUpsert && op.op != OpProps
    ensures var r := Draft(d, op, limits);
      && (r == Failed(NodeNotFound) <==>
            op.id !in d.nodes && (op.op == OpText || op.op == OpFocus || (op.op == OpRemove && op.id != ROOT)))
      && (r == Failed(RootImmutable) <==> op.id == ROOT && op.op == OpRemove)
      && r != Failed(ParentNotFound) && r != Failed(Cycle)
      && (r == Failed(TextUnsupported) <==>
            op.op == OpText && op.id in d.nodes && !d.nodes[op.id].kind.Text? && !d.nodes[op.id].kind.Viewport?)
  {
    hide IsTree;
    hide Subtree;
    hide CutNodes;
  }

  lemma UpsertRefusals(d: Document, op: Operation, limits: Limits)
    requires ReadyToMove(d.nodes) && IsTree(d.nodes) && op.op == OpUpsert && ValidateOperation(op, limits).None?
    ensures var r := Draft(d, op, limits);
      && (r == Failed(RootImmutable) <==> op.id == ROOT)
      && r != Failed(NodeNotFound) && r != Failed(TextUnsupported)
      && (op.id in d.nodes && op.id != ROOT ==>
            var n := d.nodes[op.id];
            var c := ParentAsked(n, op);
            && (r == Failed(ParentNotFound) <==> MoveAsked(n, op) && c !in d.nodes)
            && (r == Failed(Cycle) <==> MoveAsked(n, op) && c in d.nodes && c in Subtree(Shape(d.nodes), op.id)))
      && (op.id !in d.nodes && op.id != ROOT ==>
            && (r == Failed(ParentNotFound) <==> Container(op) !in d.nodes) && r != Failed(Cycle))
      && (op.id == ROOT ==> r != Failed(ParentNotFound) && r != Failed(Cycle))
  {
    hide *;
    UpsertSchema(op, limits);
    UpsertDrafts(d, op, limits);
    var a := NormalizeProps(op.kind, op.props, true);
    if op.id != ROOT {
      if op.id in d.nodes {
        StoredRefusals(d, op, a.props, a.force, limits);
      } else {
        FreshRefusals(d, op, a.props, a.force, limits);
      }
    }
  }

  lemma UpsertDrafts(d: Document, op: Operation, limits: Limits)
    requires ReadyToMove(d.nodes) && op.op == OpUpsert && NormalizeProps(op.kind, op.props, true).Accepted?
    ensures var a := NormalizeProps(op.kind, op.props, true);
      Draft(d, op, limits) ==
        if op.id == ROOT then Failed(RootImmutable)
        else if op.id in d.nodes then UpsertExisting(d, op, a.props, a.force, limits)
        else UpsertFresh(d, op, a.props, a.force, limits)
  {
    hide NormalizeProps;
    hide UpsertExisting;
    hide UpsertFresh;
    hide ReadyToMove;
  }

  lemma TableCodes(kind: NodeType, props: Props, limits: Limits)
    ensures var r := TableLimits(kind, props, limits);
      r.Some? ==> r.value == TableColumnsLimit || r.value == TableRowsLimit
  {
    hide TableColumns;
    hide TableRows;
  }

  lemma StoredRefusals(d: Document, op: Operation, props: Props, force: bool, limits: Limits)
    requires ReadyToMove(d.nodes) && IsTree(d.nodes) && op.id in d.nodes && op.id != ROOT
    ensures var r, n := UpsertExisting(d, op, props, force, limits), d.nodes[op.id];
      var c := ParentAsked(n, op);
      && (r == Failed(ParentNotFound) <==> MoveAsked(n, op) && c !in d.nodes)
      && (r == Failed(Cycle) <==> MoveAsked(n, op) && c in d.nodes && c in Subtree(Shape(d.nodes), op.id))
      && (r.Failed? ==> r.code != RootImmutable && r.code != NodeNotFound && r.code != TextUnsupported)
  {
    TableCodes(op.kind, props, limits);
    hide IsTree;
    hide Subtree;
    hide MoveNode;
    hide TableLimits;
    hide Marks;
    hide ExplicitKeys;
  }

  lemma FreshRefusals(d: Document, op: Operation, props: Props, force: bool, limits: Limits)
    requires op.id !in d.nodes
    ensures var r := UpsertFresh(d, op, props, force, limits);
      && (r == Failed(ParentNotFound) <==> Container(op) !in d.nodes)
      && (r.Failed? ==>
            r.code != Cycle && r.code != RootImmutable && r.code != NodeNotFound && r.code != TextUnsupported)
  {
    TableCodes(op.kind, props, limits);
    hide TableLimits;
    hide InsertChild;
    hide Marks;
    hide ExplicitKeys;
  }

  lemma UpsertSchema(op: Operation, limits: Limits)
    requires op.op == OpUpsert && ValidateOperation(op, limits).None?
    ensures NormalizeProps(op.kind, op.props, true).Accepted?
  {
    hide NormalizeProps;
  }

  /** Whatever is accepted speaks this version, names a node unless it is a commit, and is within the message limits. */
  lemma AcceptedWellFormed(d: Document, op: Operation, limits: Limits)
    requires ReadyToMove(d.nodes) && Apply(d, op, limits).Applied?
    ensures op.v == VERSION && op.opSeq >= 0 && op.op != OpOther && (op.op == OpCommit || op.id != "")
    ensures op.op == OpUpsert ==> op.kind.Valid()
    ensures op.op == OpUpsert || op.op == OpProps ==> op.props.Size() <= limits.maxMessageBytes
    ensures op.op == OpProps ==> op.props.Fields?
    ensures op.op == OpUpsert ==> !op.props.NotObject?
    ensures op.op == OpText ==> |op.text| <= limits.maxTextBytesPerNode
  {
    if ValidateOperation(op, limits).Some? { DocumentLaws.InvalidRefused(d, op, limits); }
    if op.op == OpUpsert && NormalizeProps(op.kind, op.props, true).Accepted? { NoStrayForce(op.kind, op.props, true); }
    hide Apply;
    hide ReadyToMove;
    hide NormalizeProps;
  }

  // ---- the markers over whole runs ----

  /**
   A node has the schema's properties and the marked ones; a marked property is one the schema allows,
   and one that is not marked has the schema's default. The root has no markers, so defaults only.
   */
  predicate MarkersTell(n: Node) {
    && (n.explicit.None? ==> n.props == Defaults(n.kind))
    && (n.explicit.Some? ==>
          && n.explicit.value.Keys <= AllowedProps(n.kind) - {"force"}
          && n.props.Keys == Defaults(n.kind).Keys + n.explicit.value.Keys
          && (forall k :: k in n.explicit.value ==> n.explicit.value[k])
          && forall k :: k in n.props && k !in n.explicit.value ==> n.props[k] == Defaults(n.kind)[k])
  }

  ghost predicate AllTell(nodes: Nodes) { forall x :: x in nodes ==> MarkersTell(nodes[x]) }

  lemma OverlayTells(n: Node, raw: PropsArg)
    requires Overlaid(Defaults(n.kind), raw, n.props) && MarksExactly(n.explicit, Sent(raw).Keys)
    requires Sent(raw).Keys <= AllowedProps(n.kind) - {"force"}
    ensures MarkersTell(n)
  {
    hide Defaults;
    hide AllowedProps;
  }

  lemma PatchTells(n: Node, m: Node, raw: PropsArg)
    requires MarkersTell(n) && Overlaid(n.props, raw, m.props) && MarksMore(n.explicit, Sent(raw).Keys, m.explicit)
    requires m.kind == n.kind && Sent(raw).Keys <= AllowedProps(n.kind) - {"force"}
    ensures MarkersTell(m)
  {
    hide Defaults;
    hide AllowedProps;
    if n.explicit.None? { assert m.props == n.props; }
  }

  lemma SameTells(n: Node, m: Node)
    requires MarkersTell(n) && m.kind == n.kind && m.props == n.props && m.explicit == n.explicit
    ensures MarkersTell(m)
  {
    hide Defaults;
    hide AllowedProps;
  }

  /** What the schema accepts it allows. */
  lemma SentAllowed(t: NodeType, raw: PropsArg, full: bool)
    requires NormalizeProps(t, raw, full).Accepted?
    ensures Sent(raw).Keys <= AllowedProps(t) - {"force"}
  {
    hide ValidNormalized;
    hide Defaults;
    hide AllowedProps;
  }

  lemma MergeAllowed(t: NodeType, current: Props, raw: PropsArg)
    requires MergeNormalized(t, current, raw).Accepted?
    ensures Sent(raw).Keys <= AllowedProps(t) - {"force"}
  {
    if NormalizeProps(t, raw, false).Accepted? { SentAllowed(t, raw, false); }
    hide NormalizeProps;
    hide ValidNormalized;
    hide AllowedProps;
  }

  /** Upserts and patches state only what the schema allows for the node's type. */
  lemma AcceptedAllowed(d: Document, op: Operation, limits: Limits)
    requires ReadyToMove(d.nodes) && Apply(d, op, limits).Applied?
    ensures op.op == OpUpsert ==> Sent(op.props).Keys <= AllowedProps(op.kind) - {"force"}
    ensures op.op == OpProps ==>
      op.id in d.nodes && Sent(op.props).Keys <= AllowedProps(d.nodes[op.id].kind) - {"force"}
  {
    hide *;
    if ValidateOperation(op, limits).Some? {
      DocumentLaws.InvalidRefused(d, op, limits);
    } else {
      ApplyCases(d, op, limits);
      if op.op == OpUpsert {
        UpsertAccepted(d, op, limits);
        SentAllowed(op.kind, op.props, true);
      } else if op.op == OpProps {
        PatchDraft(d, op, limits);
        PatchWritten(d, op, limits);
        MergeAllowed(d.nodes[op.id].kind, d.nodes[op.id].props, op.props);
      }
    }
  }

  lemma UpsertAccepted(d: Document, op: Operation, limits: Limits)
    requires ReadyToMove(d.nodes) && op.op == OpUpsert && Draft(d, op, limits).Applied?
    ensures NormalizeProps(op.kind, op.props, true).Accepted?
  {
    hide NormalizeProps;
    hide UpsertExisting;
    hide UpsertFresh;
    hide ReadyToMove;
  }

  /** Nodes an operation does not name keep type, properties and markers. */
  lemma OthersKeepContent(d: Document, op: Operation, limits: Limits)
    requires ReadyToMove(d.nodes) && Apply(d, op, limits).Applied?
    ensures forall y :: y in Apply(d, op, limits).doc.nodes ==>
      || (y == op.id && (op.op == OpUpsert || op.op == OpProps))
      || (y in d.nodes && SameKept(d.nodes[y], Apply(d, op, limits).doc.nodes[y]))
  {
    hide *;
    if ValidateOperation(op, limits).Some? {
      DocumentLaws.InvalidRefused(d, op, limits);
    } else {
      var next := Apply(d, op, limits).doc;
      ApplyCases(d, op, limits);
      forall y | y in d.nodes ensures SameKept(d.nodes[y], d.nodes[y]) { KeptItself(d.nodes[y]); }
      if op.op == OpUpsert && op.id in d.nodes {
        StoredNodeStands(d, op, limits);
        StoredOthers(d, next, op);
      } else if op.op == OpUpsert {
        NewNodeStands(d, op, limits);
        forall y | y in d.nodes ensures SameKept(d.nodes[y], next.nodes[y]) { KeptMeans(d.nodes[y], next.nodes[y]); }
      } else if op.op == OpProps {
        PatchTakesEffect(d, op, limits);
      } else {
        QuietDraft(d, op, limits);
      }
    }
  }

  predicate SameKept(n: Node, m: Node) { m.kind == n.kind && m.props == n.props && m.explicit == n.explicit }

  lemma KeptMeans(n: Node, m: Node)
    ensures SameKept(n, m) <==> m.kind == n.kind && m.props == n.props && m.explicit == n.explicit
  {
  }

  lemma KeptItself(n: Node)
    ensures SameKept(n, n)
  {
  }

  lemma StoredOthers(d: Document, next: Document, op: Operation)
    requires op.id in d.nodes && next.nodes.Keys == d.nodes.Keys && d.nodes[op.id].parent in d.nodes
    requires var n := d.nodes[op.id];
      var c := ParentAsked(n, op);
      && c in d.nodes
      && (if MoveAsked(n, op) then Rehung(d.nodes, next.nodes, op.id, c, op.index)
          else forall y :: y in d.nodes && y != op.id ==> next.nodes[y] == d.nodes[y])
      && forall y :: y in d.nodes && y !in {op.id, c, n.parent} ==> next.nodes[y] == d.nodes[y]
    ensures forall y :: y in d.nodes && y != op.id ==> SameKept(d.nodes[y], next.nodes[y])
  {
    hide Placed;
    hide Without;
  }

  lemma QuietDraft(d: Document, op: Operation, limits: Limits)
    requires ReadyToMove(d.nodes) && op.op != OpUpsert && op.op != OpProps && Draft(d, op, limits).Applied?
    ensures forall y :: y in Draft(d, op, limits).doc.nodes ==>
      y in d.nodes && SameKept(d.nodes[y], Draft(d, op, limits).doc.nodes[y])
  {
    if op.op == OpRemove && op.id in d.nodes { CutContent(d.nodes, op.id, Subtree(Shape(d.nodes), op.id)); }
    hide IsTree;
    hide Subtree;
    hide CutNodes;
    hide Sum;
    hide Postorder;
  }

  lemma TellsApplied(d: Document, op: Operation, limits: Limits)
    requires ReadyToMove(d.nodes) && AllTell(d.nodes) && Apply(d, op, limits).Applied?
    ensures AllTell(Apply(d, op, limits).doc.nodes)
  {
    hide *;
    var next := Apply(d, op, limits).doc;
    OthersKeepContent(d, op, limits);
    AcceptedAllowed(d, op, limits);
    forall y | y in next.nodes ensures MarkersTell(next.nodes[y]) {
      if y == op.id && op.op == OpUpsert {
        if op.id in d.nodes { StoredNodeStands(d, op, limits); } else { NewNodeStands(d, op, limits); }
        OverlayTells(next.nodes[y], op.props);
      } else if y == op.id && op.op == OpProps {
        PatchTakesEffect(d, op, limits);
        TellAt(d.nodes, y);
        PatchTells(d.nodes[y], next.nodes[y], op.props);
      } else {
        TellAt(d.nodes, y);
        KeptMeans(d.nodes[y], next.nodes[y]);
        SameTells(d.nodes[y], next.nodes[y]);
      }
    }
    TellAll(next.nodes);
  }

  lemma TellAt(nodes: Nodes, x: Id)
    requires AllTell(nodes) && x in nodes
    ensures MarkersTell(nodes[x])
  {
    hide MarkersTell;
  }

  lemma TellAll(nodes: Nodes)
    requires forall x :: x in nodes ==> MarkersTell(nodes[x])
    ensures AllTell(nodes)
  {
    hide MarkersTell;
  }

  lemma {:induction false} TellsAlong(d: Document, ops: seq<Operation>, limits: Limits)
    requires Sound(d, limits) && 0 <= limits.maxTextBytesPerNode && AllTell(d.nodes)
    ensures AllTell(DocumentLaws.Run(d, ops, limits).nodes)
    decreases |ops|
  {
    hide *;
    DocumentLaws.RunCases(d, ops, limits);
    if ops != [] {
      SoundReady(d, limits);
      AfterTells(d, ops[0], limits);
      TellsAlong(DocumentLaws.After(d, ops[0], limits), ops[1..], limits);
    }
  }

  lemma AfterTells(d: Document, op: Operation, limits: Limits)
    requires ReadyToMove(d.nodes) && AllTell(d.nodes)
    ensures AllTell(DocumentLaws.After(d, op, limits).nodes)
  {
    if Apply(d, op, limits).Applied? { TellsApplied(d, op, limits); }
    hide ReadyToMove;
    hide AllTell;
    hide Apply;
  }

  /**
   In every document operations can reach from the new one, each node's markers tell exactly which of
   its properties were ever stated: all others have the default of the schema. The root's never change.
   */
  lemma MarkersTellAlways(ops: seq<Operation>, limits: Limits)
    requires 1 <= limits.maxNodes && 0 <= limits.maxDepth && 0 <= limits.maxChildren
    requires 0 <= limits.maxTotalTextBytes && 0 <= limits.maxTextBytesPerNode
    requires DocumentBytes(NewDocument().nodes) <= limits.maxDocumentBytes
    ensures Sound(NewDocument(), limits)
    ensures AllTell(DocumentLaws.Run(NewDocument(), ops, limits).nodes)
  {
    NewTells();
    hide *;
    DocumentLaws.NewDocumentValid(limits);
    TellsAlong(NewDocument(), ops, limits);
  }

  lemma NewTells()
    ensures AllTell(NewDocument().nodes)
  {
    hide Defaults;
  }
}

/**
 document/reducer.go, as a function from documents to outcomes. The helpers are specified through
 the ordered tree a document encodes; `Candidate` in module Candidates runs the code itself.
 */
module Reducer {
  import opened Forests
  import opened Protocol
  import opened Documents
  import opened Sums

  /** Crashed is Go's panic on a write to a nil map; OverLimits is a refusal by the validator. */
  datatype Outcome =
    | Failed(code: Code)
    | OverLimits
    | Crashed
    | Applied(doc: Document, eff: Effect)

  // ---- what every document reached by operations satisfies ----

  function TableRows(p: Props): nat { |ItemsOf(PropJson(p, "rows"))| }
  function TableColumns(p: Props): nat { |ItemsOf(PropJson(p, "columns"))| }

  function TableLimits(kind: NodeType, props: Props, limits: Limits): Result {
    if !kind.Table? then None
    else if TableColumns(props) > limits.maxTableColumns then Some(TableColumnsLimit)
    else if TableRows(props) > limits.maxTableRows then Some(TableRowsLimit)
    else None
  }

  /** Per-node facts the validator does not check. */
  ghost predicate NodeKept(x: Id, n: Node, limits: Limits) {
    && x != NO_PARENT
    && (x != ROOT <==> n.explicit.Some?)
    && |n.text| <= limits.maxTextBytesPerNode
    && TableLimits(n.kind, n.props, limits).None?
    && ValidNormalized(n.kind, n.props)
  }

  ghost predicate Kept(nodes: Nodes, limits: Limits) {
    forall x :: x in nodes ==> NodeKept(x, nodes[x], limits)
  }

  ghost predicate Sound(d: Document, limits: Limits) {
    Valid(d, limits) && Kept(d.nodes, limits)
  }

  // ---- helpers ----

  /** insertChild: an index outside the list appends. */
  function InsertIndex(length: nat, index: Option<int>): (i: nat)
    ensures i <= length
  {
    if index.Some? && 0 <= index.value < length then index.value else length
  }

  function InsertChild(children: seq<Id>, id: Id, index: Option<int>): seq<Id> {
    InsertAt(children, InsertIndex(|children|, index), id)
  }

  /** `n` after `x` left every list and entered the list of `p`. */
  function Relinked(n: Node, x: Id, p: Id, index: Option<int>): Node {
    var rest := Without(n.children, x);
    n.(parent := if n.id == x then p else n.parent,
       children := if n.id == p then InsertChild(rest, x, index) else rest)
  }

  function MoveNode(nodes: Nodes, x: Id, p: Id, index: Option<int>): Nodes {
    map y | y in nodes :: Relinked(nodes[y], x, p, index)
  }

  function Marks(keys: set<string>): map<string, bool> {
    map k | k in keys :: true
  }

  function TargetParent(n: Node, op: Operation): Id {
    if op.parent != "" then op.parent else n.parent
  }

  /** The fields an upsert writes at the node itself. */
  function Rewritten(n: Node, op: Operation, props: Props): Node {
    n.(kind := op.kind, text := if n.kind != op.kind then "" else n.text,
       props := props, explicit := Some(Marks(ExplicitKeys(op.props))))
  }

  ghost predicate ReadyToMove(nodes: Nodes) { IsTree(nodes) && NO_PARENT !in nodes }

  ghost function UpsertExisting(d: Document, op: Operation, props: Props, force: bool, limits: Limits): Outcome
    requires ReadyToMove(d.nodes) && op.id in d.nodes && op.id != ROOT
  {
    var n := d.nodes[op.id];
    var target := TargetParent(n, op);
    var topology := target != n.parent || op.index.Some?;
    if topology && target !in d.nodes then Failed(ParentNotFound)
    else if topology && target in Subtree(Shape(d.nodes), op.id) then Failed(Cycle)
    else if topology && !d.nodes[target].kind.Container() then Failed(ParentNotContainer)
    else if n.kind != op.kind && n.children != [] && !op.kind.Container() then Failed(ParentNotContainer)
    else
      var moved := if topology then MoveNode(d.nodes, op.id, target, op.index) else d.nodes;
      var m := Rewritten(moved[op.id], op, props);
      if TableLimits(m.kind, m.props, limits).Some? then Failed(TableLimits(m.kind, m.props, limits).value)
      else
        var nodes := moved[op.id := m];
        var lost := if n.kind != op.kind then |n.text| else 0;
        Applied(d.(nodes := nodes, totalTextBytes := d.totalTextBytes - lost),
                Effect(nodes != d.nodes, false, [], n.kind != op.kind, force))
  }

  function UpsertFresh(d: Document, op: Operation, props: Props, force: bool, limits: Limits): Outcome
    requires op.id !in d.nodes
  {
    var parent := if op.parent == "" then ROOT else op.parent;
    if parent !in d.nodes then Failed(ParentNotFound)
    else if !d.nodes[parent].kind.Container() then Failed(ParentNotContainer)
    else if TableLimits(op.kind, props, limits).Some? then Failed(TableLimits(op.kind, props, limits).value)
    else
      var n := NewNode(op.id, op.kind, parent, props, Marks(ExplicitKeys(op.props)));
      var p := d.nodes[parent];
      Applied(d.(nodes := d.nodes[op.id := n][parent := p.(children := InsertChild(p.children, op.id, op.index))]),
              Effect(true, false, [], false, force))
  }

  ghost function Upsert(d: Document, op: Operation, limits: Limits): Outcome
    requires ReadyToMove(d.nodes)
  {
    if op.id == ROOT then Failed(RootImmutable)
    else match NormalizeProps(op.kind, op.props, true)
      case Rejected(code) => Failed(code)
      case Accepted(props, force) =>
        if op.id in d.nodes then UpsertExisting(d, op, props, force, limits)
        else UpsertFresh(d, op, props, force, limits)
  }

  /** The marker write is undefined on a nil map. */
  function PatchProps(d: Document, op: Operation, limits: Limits): Outcome {
    if op.id !in d.nodes then Failed(NodeNotFound)
    else
      var n := d.nodes[op.id];
      match MergeNormalized(n.kind, n.props, op.props)
      case Rejected(code) => Failed(code)
      case Accepted(props, force) =>
        var keys := ExplicitKeys(op.props);
        if n.explicit.None? && keys != {} then Crashed
        else
          var explicit := if n.explicit.None? then None else Some(n.explicit.value + Marks(keys));
          if n.props == props && n.explicit == explicit then Applied(d, NO_EFFECT.(force := force))
          else if TableLimits(n.kind, props, limits).Some? then Failed(TableLimits(n.kind, props, limits).value)
          else Applied(d.(nodes := d.nodes[op.id := n.(props := props, explicit := explicit)]),
                       NO_EFFECT.(changed := true, force := force))
  }

  function AppendText(d: Document, op: Operation, limits: Limits): Outcome {
    if op.id !in d.nodes then Failed(NodeNotFound)
    else
      var n := d.nodes[op.id];
      if !n.kind.Text? && !n.kind.Viewport? then Failed(TextUnsupported)
      else if op.text == "" then Applied(d, NO_EFFECT)
      else if |n.text| + |op.text| > limits.maxTextBytesPerNode then Failed(TextTooLarge)
      else if d.totalTextBytes + |op.text| > limits.maxTotalTextBytes then Failed(TextTooLarge)
      else Applied(d.(nodes := d.nodes[op.id := n.(text := n.text + op.text)],
                      totalTextBytes := d.totalTextBytes + |op.text|),
                   NO_EFFECT.(changed := true))
  }

  /** The nodes outside `gone`, with `id` taken out of its parent's list. */
  function CutNodes(nodes: Nodes, id: Id, gone: set<Id>): Nodes
    requires id in nodes
  {
    map y | y in nodes && y !in gone ::
      if y == nodes[id].parent then nodes[y].(children := Without(nodes[y].children, id)) else nodes[y]
  }

  ghost function Remove(d: Document, id: Id): Outcome
    requires IsTree(d.nodes)
  {
    if id == ROOT then Failed(RootImmutable)
    else if id !in d.nodes then Failed(NodeNotFound)
    else
      var f := Shape(d.nodes);
      var gone := Subtree(f, id);
      Applied(d.(nodes := CutNodes(d.nodes, id, gone),
                 totalTextBytes := d.totalTextBytes - Sum(gone, TextWeight(d.nodes))),
              NO_EFFECT.(changed := true, removed := Postorder(KidsOf(f, id)) + [id]))
  }

  /** The operation on the candidate, before validation. */
  ghost function Draft(d: Document, op: Operation, limits: Limits): Outcome
    requires ReadyToMove(d.nodes)
  {
    match op.op
    case OpUpsert => Upsert(d, op, limits)
    case OpProps => PatchProps(d, op, limits)
    case OpText => AppendText(d, op, limits)
    case OpRemove => Remove(d, op.id)
    case OpFocus => if op.id in d.nodes then Applied(d, NO_EFFECT) else Failed(NodeNotFound)
    case OpCommit => Applied(d, NO_EFFECT.(commit := true))
    case OpOther => Failed(UnknownOp)
  }

  /** A changed candidate must be valid; it then becomes the next revision. */
  ghost function Apply(d: Document, op: Operation, limits: Limits): Outcome
    requires ReadyToMove(d.nodes)
  {
    var invalid := ValidateOperation(op, limits);
    if invalid.Some? then Failed(invalid.value)
    else match Draft(d, op, limits)
      case Applied(doc, eff) =>
        if !eff.changed then Applied(doc, eff)
        else if Valid(doc, limits) then Applied(doc.(revision := d.revision + 1), eff)
        else OverLimits
      case other => other
  }

  // ---- link facts ----

  lemma ParentStored(nodes: Nodes, x: Id)
    requires IsTree(nodes) && x in nodes && x != ROOT
    ensures nodes[x].parent in nodes && x in nodes[nodes[x].parent].children
  {
    var f := Shape(nodes);
    EncodesAt(nodes, f, NO_PARENT, x);
    assert Roots(f) == [ROOT];
    EncodesAt(nodes, f, NO_PARENT, nodes[x].parent);
  }
}

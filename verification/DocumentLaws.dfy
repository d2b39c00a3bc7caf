/** What the reducer promises over single operations and over whole runs. */
module DocumentLaws {
  import opened Forests
  import opened Protocol
  import opened Documents
  import opened Sums
  import opened Reducer
  import opened TreeSteps
  import opened Preservation

  // ---- every reachable document ----

  /** Sound documents stay sound; a revision is spent exactly on each real change. */
  lemma ApplySound(d: Document, op: Operation, limits: Limits)
    requires Sound(d, limits) && 0 <= limits.maxTextBytesPerNode
    ensures ReadyToMove(d.nodes)
    ensures var r := Apply(d, op, limits); r.Applied? ==>
      && Sound(r.doc, limits)
      && (r.eff.changed ==> r.doc.revision == d.revision + 1)
      && (!r.eff.changed ==> r.doc == d)
  {
    SoundIntact(d, limits);
    ReadyFromIntact(d, limits);
    hide *;
    if ValidateOperation(op, limits).None? {
      ApplyCases(d, op, limits);
      DraftIntact(d, op, limits);
      var draft, r := Draft(d, op, limits), Apply(d, op, limits);
      if r.Applied? {
        if r.eff.changed {
          RevisionIrrelevant(draft.doc, r.doc, limits);
        }
        SoundIntact(r.doc, limits);
      }
    } else {
      InvalidRefused(d, op, limits);
    }
  }

  lemma InvalidRefused(d: Document, op: Operation, limits: Limits)
    requires ReadyToMove(d.nodes) && ValidateOperation(op, limits).Some?
    ensures Apply(d, op, limits) == Failed(ValidateOperation(op, limits).value)
  {
    hide ValidateOperation;
    hide Draft;
    hide Valid;
  }

  lemma RevisionIrrelevant(d: Document, d': Document, limits: Limits)
    requires d'.nodes == d.nodes && d'.totalTextBytes == d.totalTextBytes
    ensures Valid(d, limits) ==> Valid(d', limits)
    ensures Intact(d, limits) ==> Intact(d', limits)
  {
  }

  /** The document after an operation: anything but an accepted operation leaves it alone. */
  ghost function After(d: Document, op: Operation, limits: Limits): Document
    requires ReadyToMove(d.nodes)
  {
    match Apply(d, op, limits)
    case Applied(doc, _) => doc
    case _ => d
  }

  lemma AfterSound(d: Document, op: Operation, limits: Limits)
    requires Sound(d, limits) && 0 <= limits.maxTextBytesPerNode
    ensures ReadyToMove(d.nodes) && Sound(After(d, op, limits), limits)
  {
    ApplySound(d, op, limits);
    hide Sound;
    hide Apply;
    hide ReadyToMove;
  }

  ghost function Run(d: Document, ops: seq<Operation>, limits: Limits): (r: Document)
    requires Sound(d, limits) && 0 <= limits.maxTextBytesPerNode
    ensures Sound(r, limits)
    decreases |ops|
  {
    hide *;
    if ops == [] then d
    else
      AfterSound(d, ops[0], limits);
      Run(After(d, ops[0], limits), ops[1..], limits)
  }

  lemma RunCases(d: Document, ops: seq<Operation>, limits: Limits)
    requires Sound(d, limits) && 0 <= limits.maxTextBytesPerNode
    ensures ops == [] ==> Run(d, ops, limits) == d
    ensures ops != [] ==>
      && ReadyToMove(d.nodes) && Sound(After(d, ops[0], limits), limits)
      && Run(d, ops, limits) == Run(After(d, ops[0], limits), ops[1..], limits)
  {
    hide Sound;
    hide After;
    hide ReadyToMove;
    if ops != [] { AfterSound(d, ops[0], limits); }
  }

  lemma NewDocumentValid(limits: Limits)
    requires 1 <= limits.maxNodes && 0 <= limits.maxDepth && 0 <= limits.maxChildren
    requires 0 <= limits.maxTotalTextBytes && 0 <= limits.maxTextBytesPerNode
    requires DocumentBytes(NewDocument().nodes) <= limits.maxDocumentBytes
    ensures Sound(NewDocument(), limits)
  {
    hide *;
    NewTree();
    NewNodes(limits);
    SoundFrom(NewDocument(), limits);
  }

  lemma SoundFrom(d: Document, limits: Limits)
    requires IsTree(d.nodes) && Height(Shape(d.nodes)) == 1 && d.totalTextBytes == TextBytes(d.nodes) == 0
    requires d.nodes.Keys == {ROOT} && |d.nodes| == 1 && d.nodes[ROOT].children == []
    requires NodeKept(ROOT, d.nodes[ROOT], limits) && DocumentBytes(d.nodes) <= limits.maxDocumentBytes
    requires 1 <= limits.maxNodes && 0 <= limits.maxDepth && 0 <= limits.maxChildren && 0 <= limits.maxTotalTextBytes
    ensures Sound(d, limits)
  {
    NodeCount(d.nodes);
    hide IsTree;
    hide NodeKept;
    hide TextBytes;
    hide DocumentBytes;
  }

  /** The new document is the tree with the root alone, without text. */
  lemma NewTree()
    ensures var d := NewDocument();
      IsTree(d.nodes) && Height(Shape(d.nodes)) == 1 && d.totalTextBytes == TextBytes(d.nodes) == 0
  {
    hide Defaults;
    var d := NewDocument();
    TreeFrom(d.nodes, Cons(ROOT, Nil, Nil));
    SumTake(d.nodes.Keys, TextWeight(d.nodes), ROOT);
    assert d.nodes.Keys - {ROOT} == {};
  }

  lemma NewNodes(limits: Limits)
    requires 0 <= limits.maxTextBytesPerNode
    ensures var d := NewDocument();
      && d.nodes.Keys == {ROOT} && |d.nodes| == 1 && d.nodes[ROOT].children == []
      && NodeKept(ROOT, d.nodes[ROOT], limits)
  {
    DefaultsValid();
    var d := NewDocument();
    assert d.nodes.Keys == {ROOT};
    hide Defaults;
    hide ValidNormalized;
  }

  lemma DefaultsValid()
    ensures ValidNormalized(Box, Defaults(Box))
  {
    var p := Defaults(Box);
    EnumsHold(p);
    assert p["padding"] == p["gap"] == ZERO && p["style"] == EMPTY_OBJECT && "flex" !in p;
    BoxRules(p);
  }

  /** The enumerated properties of a box have their default values. */
  predicate DefaultEnums(p: Props) {
    && "variant" in p && p["variant"] == Quoted("plain") && "align" in p && p["align"] == Quoted("start")
    && "responsive" in p && p["responsive"] == Quoted("none") && "dir" in p && p["dir"] == Quoted("col")
    && "border" in p && p["border"] == Quoted("none")
  }

  lemma EnumsHold(p: Props)
    ensures DefaultEnums(Defaults(Box))
    ensures DefaultEnums(p) ==>
      && EnumField(p, "variant", {"plain", "panel", "card", "section"})
      && EnumField(p, "align", {"start", "center", "end", "stretch"})
      && EnumField(p, "responsive", {"none", "stack"})
      && EnumField(p, "dir", {"col", "row"}) && EnumField(p, "border", {"none", "rounded", "normal"})
  {
  }

  /** The nine checks of a box. */
  lemma BoxRules(p: Props)
    requires FlexField(p) && StyleField(p) && IntField(p, "padding", 0) && IntField(p, "gap", 0)
    requires EnumField(p, "variant", {"plain", "panel", "card", "section"})
    requires EnumField(p, "align", {"start", "center", "end", "stretch"})
    requires EnumField(p, "responsive", {"none", "stack"})
    requires EnumField(p, "dir", {"col", "row"}) && EnumField(p, "border", {"none", "rounded", "normal"})
    ensures ValidNormalized(Box, p)
  {
    hide FlexField;
    hide StyleField;
    hide EnumField;
    hide IntField;
  }

  /**
   Every document any sequence of operations can reach from the new one is a rooted tree within
   the limits, with bounded nodes and a true text total.
   */
  lemma ReachableSound(ops: seq<Operation>, limits: Limits)
    requires 1 <= limits.maxNodes && 0 <= limits.maxDepth && 0 <= limits.maxChildren
    requires 0 <= limits.maxTotalTextBytes && 0 <= limits.maxTextBytesPerNode
    requires DocumentBytes(NewDocument().nodes) <= limits.maxDocumentBytes
    ensures Sound(NewDocument(), limits)
    ensures Sound(Run(NewDocument(), ops, limits), limits)
  {
    NewDocumentValid(limits);
  }

  // ---- the nil marker map of the root ----

  /** A sound document crashes the reducer exactly on an acceptable, non-empty patch of the root. */
  lemma CrashExactly(d: Document, op: Operation, limits: Limits)
    requires Sound(d, limits) && ReadyToMove(d.nodes)
    ensures Apply(d, op, limits) == Crashed <==>
      && ValidateOperation(op, limits).None? && op.op == OpProps && op.id == ROOT
      && MergeNormalized(Box, d.nodes[ROOT].props, op.props).Accepted?
      && ExplicitKeys(op.props) != {}
  {
    if op.op == OpProps && op.id in d.nodes { KeptAt(d.nodes, op.id, limits); }
    RootStored(d.nodes);
    assert d.nodes[ROOT].kind == Box;
    DraftCrash(d, op, limits);
    hide *;
    if ValidateOperation(op, limits).None? {
      ApplyCases(d, op, limits);
    } else {
      InvalidRefused(d, op, limits);
    }
  }

  lemma DraftCrash(d: Document, op: Operation, limits: Limits)
    requires ReadyToMove(d.nodes)
    requires forall x :: x in d.nodes ==> (x == ROOT <==> d.nodes[x].explicit.None?)
    ensures Draft(d, op, limits) == Crashed <==>
      && op.op == OpProps && op.id in d.nodes && op.id == ROOT
      && MergeNormalized(d.nodes[ROOT].kind, d.nodes[ROOT].props, op.props).Accepted?
      && ExplicitKeys(op.props) != {}
  {
    hide MergeNormalized;
    hide NormalizeProps;
    hide ExplicitKeys;
    hide TableLimits;
    hide MoveNode;
    hide IsTree;
  }

  /** `{"gap": 2}` for the root. */
  const ROOT_PATCH := Operation(1, 1, OpProps, ROOT, Box, "", None, "", "",
                                Fields(9, map["gap" := RawValue("2", Int(2))]))

  /** A patch that sets one more property of the root, on the very first document, crashes. */
  lemma RootPatchCrashes(limits: Limits)
    requires Sound(NewDocument(), limits) && 9 <= limits.maxMessageBytes
    ensures ReadyToMove(NewDocument().nodes) && Apply(NewDocument(), ROOT_PATCH, limits) == Crashed
  {
    SoundIntact(NewDocument(), limits);
    ReadyFromIntact(NewDocument(), limits);
    GapPatch(limits);
    hide ReadyToMove;
    hide Sound;
    hide Apply;
    hide MergeNormalized;
    hide ValidateOperation;
    hide ExplicitKeys;
    hide Defaults;
    CrashExactly(NewDocument(), ROOT_PATCH, limits);
  }

  lemma GapPatch(limits: Limits)
    requires 9 <= limits.maxMessageBytes
    ensures ValidateOperation(ROOT_PATCH, limits).None?
    ensures ExplicitKeys(ROOT_PATCH.props) != {}
    ensures MergeNormalized(Box, Defaults(Box), ROOT_PATCH.props).Accepted?
  {
    var p := ROOT_PATCH.props.fields;
    GapFields();
    GapKeys();
    hide AllowedProps;
    hide ValidNormalized;
    hide Defaults;
    hide ExplicitKeys;
  }

  lemma GapKeys()
    ensures ExplicitKeys(ROOT_PATCH.props) != {} && ROOT_PATCH.props.fields.Keys <= AllowedProps(Box)
  {
    assert "gap" in ExplicitKeys(ROOT_PATCH.props);
  }

  lemma GapFields()
    ensures ValidNormalized(Box, ROOT_PATCH.props.fields)
    ensures ValidNormalized(Box, Defaults(Box) + ROOT_PATCH.props.fields)
  {
    var p, d := ROOT_PATCH.props.fields, Defaults(Box);
    OnlyGap(p);
    WithGap(d, p);
  }

  lemma OnlyGap(p: Props)
    requires p.Keys == {"gap"} && p["gap"].json == Int(2)
    ensures ValidNormalized(Box, p)
  {
    BoxRules(p);
  }

  lemma WithGap(d: Props, p: Props)
    requires d == Defaults(Box) && p.Keys == {"gap"} && p["gap"].json == Int(2)
    ensures ValidNormalized(Box, d + p)
  {
    var merged := d + p;
    EnumsHold(merged);
    assert d["padding"] == ZERO && d["style"] == EMPTY_OBJECT && "flex" !in d;
    assert forall k :: k in d && k != "gap" ==> k in merged && merged[k] == d[k];
    hide Defaults;
    BoxRules(merged);
  }
}

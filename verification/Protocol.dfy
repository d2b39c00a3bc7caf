/**
 Operations, limits and property schemas (protocol/).

 Strings stand for their byte sequences, so `|s|` is a length in bytes. A `RawValue` is a raw JSON
 value: the bytes that were sent together with what the decoder reads from them.
 */
module Protocol {
  import opened Forests

  datatype Option<+T> = None | Some(value: T)

  /** Error codes; message texts are not kept. */
  datatype Code =
    | VersionMismatch | InvalidSequence | SequenceGap | SequenceMismatch | InvalidState
    | SessionMismatch | UnsupportedKind | UnknownOp
    | MissingField | UnknownType | InvalidHello
    | InvalidProps // schema.invalid_props, schema.unknown_property or schema.invalid_color
    | RootImmutable | NodeNotFound | ParentNotFound | ParentNotContainer | Cycle | TextUnsupported
    | Invariant
    | MessageTooLarge | TextTooLarge | NodeLimit | DepthLimit | ChildrenLimit
    | DocumentBytesLimit | TableColumnsLimit | TableRowsLimit
    | FocusTargetMissing | NotFocusable | BindingConflict | InvalidActions | Backpressure
    | InvalidEventClass | NotInput | NotTable | NotSelectable
  {
    /** The codes of the `resource.*` family. */
    predicate Resource() {
      this in {MessageTooLarge, TextTooLarge, NodeLimit, DepthLimit, ChildrenLimit,
               DocumentBytesLimit, TableColumnsLimit, TableRowsLimit}
    }
  }

  type Result = Option<Code> // None is Go's nil error

  // ---- node types and limits ----

  datatype NodeType = Box | Text | Viewport | Table | Input | Actions | Progress | Other(name: string)
  {
    predicate Valid() { !Other? }
    predicate Container() { Box? || Viewport? }
  }

  datatype Limits = Limits(
    maxMessageBytes: int, maxDocumentBytes: int, maxNodes: int, maxDepth: int, maxChildren: int,
    maxTextBytesPerNode: int, maxTotalTextBytes: int, maxTableRows: int, maxTableColumns: int,
    maxPendingEvents: int, maxPendingMutations: int)

  const VERSION := 1
  const ROOT: Id := "root"
  const NO_PARENT: Id := ""

  // ---- JSON values ----

  datatype Json =
    | Null
    | Bool(b: bool)
    | Int(n: int)      // a literal without fraction or exponent
    | Float(r: real)   // any other number literal
    | Str(s: string)
    | Arr(items: seq<Json>)
    | Obj(fields: map<string, Json>)

  datatype RawValue = RawValue(bytes: string, json: Json)

  type Props = map<string, RawValue>

  /** The `props` field of an operation. */
  datatype PropsArg =
    | Missing
    | NotObject(size: nat)             // null, malformed, or not an object
    | Fields(size: nat, fields: Props)
  {
    function Size(): nat { if Missing? then 0 else size }
  }

  datatype OpKind = OpUpsert | OpProps | OpText | OpRemove | OpFocus | OpCommit | OpOther

  datatype Operation = Operation(
    v: int, opSeq: int, op: OpKind, id: Id, kind: NodeType, parent: Id, index: Option<int>,
    text: string, frame: string, props: PropsArg)

  // ---- decoding into Go values: `null` leaves the zero value and is not an error ----

  predicate StringLike(j: Json) { j.Null? || j.Str? }
  function StringOf(j: Json): string { if j.Str? then j.s else "" }

  predicate BoolLike(j: Json) { j.Null? || j.Bool? }
  function BoolOf(j: Json): bool { j.Bool? && j.b }

  predicate IntLike(j: Json) { j.Null? || j.Int? }
  function IntOf(j: Json): int { if j.Int? then j.n else 0 }

  predicate ArrayLike(j: Json) { j.Null? || j.Arr? }
  function ItemsOf(j: Json): seq<Json> { if j.Arr? then j.items else [] }

  predicate StringsLike(j: Json) { ArrayLike(j) && forall x :: x in ItemsOf(j) ==> StringLike(x) }

  function StringsOf(j: Json): seq<string> {
    seq(|ItemsOf(j)|, i requires 0 <= i < |ItemsOf(j)| => StringOf(ItemsOf(j)[i]))
  }

  predicate RowsLike(j: Json) { ArrayLike(j) && forall x :: x in ItemsOf(j) ==> StringsLike(x) }

  function PropJson(p: Props, key: string): Json { if key in p then p[key].json else Null }

  // ---- field checks of validateNormalized ----

  predicate StringField(p: Props, key: string) { StringLike(PropJson(p, key)) }
  predicate BoolField(p: Props, key: string) { BoolLike(PropJson(p, key)) }

  predicate IntField(p: Props, key: string, least: int) {
    key in p ==> IntLike(p[key].json) && IntOf(p[key].json) >= least
  }

  predicate EnumField(p: Props, key: string, allowed: set<string>) {
    StringField(p, key) && (StringOf(PropJson(p, key)) == "" || StringOf(PropJson(p, key)) in allowed)
  }

  predicate FlexField(p: Props) {
    "flex" in p ==>
      var j := p["flex"].json;
      && j.Obj?
      && j.fields.Keys <= {"grow", "basis", "min_width", "max_width"}
      && (forall k :: k in j.fields ==>
            IntLike(j.fields[k]) && IntOf(j.fields[k]) >= if k == "grow" || k == "basis" then 0 else 1)
      && ("min_width" in j.fields && "max_width" in j.fields ==>
            IntOf(j.fields["min_width"]) <= IntOf(j.fields["max_width"]))
  }

  predicate StyleField(p: Props) {
    var j := PropJson(p, "style");
    j.Null? ||
    (&& j.Obj?
     && j.fields.Keys <= {"fg", "bg", "bold", "dim"}
     && forall k :: k in j.fields ==>
          if k == "fg" || k == "bg"
          then StringLike(j.fields[k]) && StringOf(j.fields[k]) in {"", "primary", "warn", "error", "muted"}
          else BoolLike(j.fields[k]))
  }

  predicate ColumnOk(j: Json) {
    && j.Obj?
    && j.fields.Keys <= {"title", "width"}
    && "title" in j.fields && j.fields["title"].Str? && j.fields["title"].s != ""
    && ("width" in j.fields ==> j.fields["width"].Int? && j.fields["width"].n >= 1)
  }

  predicate UniqueNonEmpty(ids: seq<string>) {
    && (forall i :: 0 <= i < |ids| ==> ids[i] != "")
    && forall i, j :: 0 <= i < j < |ids| ==> ids[i] != ids[j]
  }

  /** `row_ids` is absent, or names every row once. */
  predicate RowIdsOk(p: Props) {
    "row_ids" in p ==>
      && StringsLike(p["row_ids"].json)
      && |StringsOf(p["row_ids"].json)| == |ItemsOf(PropJson(p, "rows"))|
      && UniqueNonEmpty(StringsOf(p["row_ids"].json))
  }

  /** The bytes of a valid UTF-8 string that start a rune. */
  function RuneCount(s: string): nat {
    if s == "" then 0 else
      (if 0x80 <= s[0] as int < 0xC0 then 0 else 1) + RuneCount(s[1..])
  }

  predicate ItemOk(j: Json) {
    && j.Obj?
    && j.fields.Keys <= {"key", "label", "action", "args"}
    && "key" in j.fields && j.fields["key"].Str? && RuneCount(j.fields["key"].s) == 1
    && "label" in j.fields && j.fields["label"].Str? && j.fields["label"].s != ""
    && "action" in j.fields && j.fields["action"].Str? && j.fields["action"].s != ""
    && ("args" in j.fields ==> j.fields["args"].Obj? || j.fields["args"].Null?)
  }

  predicate RatioField(p: Props) {
    match PropJson(p, "value")
    case Null => true
    case Int(n) => 0 <= n <= 1
    case Float(r) => 0.0 <= r <= 1.0
    case _ => false
  }

  /** One check of validateNormalized. */
  datatype Rule =
    | StringRule(key: string)
    | BoolRule(key: string)
    | IntRule(key: string, least: int)
    | EnumRule(key: string, allowed: set<string>)
    | FlexRule | StyleRule | ColumnsRule | RowsRule | RowIdsRule | ItemsRule | RatioRule

  predicate Obeys(p: Props, r: Rule) {
    match r
    case StringRule(key) => StringField(p, key)
    case BoolRule(key) => BoolField(p, key)
    case IntRule(key, least) => IntField(p, key, least)
    case EnumRule(key, allowed) => EnumField(p, key, allowed)
    case FlexRule => FlexField(p)
    case StyleRule => StyleField(p)
    case ColumnsRule =>
      ArrayLike(PropJson(p, "columns")) && forall c :: c in ItemsOf(PropJson(p, "columns")) ==> ColumnOk(c)
    case RowsRule => RowsLike(PropJson(p, "rows"))
    case RowIdsRule => RowIdsOk(p)
    case ItemsRule =>
      ArrayLike(PropJson(p, "items")) && forall it :: it in ItemsOf(PropJson(p, "items")) ==> ItemOk(it)
    case RatioRule => RatioField(p)
  }

  /** The checks for each type of node. */
  function Rules(t: NodeType): seq<Rule> {
    match t
    case Box =>
      [FlexRule, StyleRule, IntRule("padding", 0), IntRule("gap", 0),
       EnumRule("variant", {"plain", "panel", "card", "section"}),
       EnumRule("align", {"start", "center", "end", "stretch"}), EnumRule("responsive", {"none", "stack"}),
       EnumRule("dir", {"col", "row"}), EnumRule("border", {"none", "rounded", "normal"})]
    case Text =>
      [FlexRule, StyleRule, StringRule("text"),
       EnumRule("variant", {"body", "title", "subtitle", "label", "code", "muted"})]
    case Viewport =>
      [FlexRule, IntRule("height", 1), BoolRule("wrap"), BoolRule("follow_tail"), BoolRule("scrollable")]
    case Table =>
      [FlexRule, EnumRule("variant", {"normal", "compact", "dense"}), BoolRule("selectable"), StringRule("action"),
       ColumnsRule, RowsRule, RowIdsRule]
    case Input => [FlexRule, StringRule("placeholder"), StringRule("value"), StringRule("action")]
    case Actions => [FlexRule, EnumRule("variant", {"inline", "toolbar", "list"}), ItemsRule]
    case Progress =>
      [FlexRule, EnumRule("variant", {"bar", "compact", "spinner"}),
       EnumRule("state", {"normal", "loading", "success", "error"}), StringRule("label"), RatioRule]
    case Other(_) => [FlexRule]
  }

  /** validateNormalized accepts `p` for a node of type `t`. */
  predicate ValidNormalized(t: NodeType, p: Props) {
    forall r :: r in Rules(t) ==> Obeys(p, r)
  }

  function AllowedProps(t: NodeType): set<string> {
    match t
    case Box => {"dir", "padding", "gap", "border", "style", "variant", "align", "responsive", "flex"}
    case Text => {"text", "style", "variant", "flex"}
    case Viewport => {"height", "wrap", "follow_tail", "scrollable", "flex"}
    case Table => {"columns", "rows", "selectable", "row_ids", "action", "variant", "flex"}
    case Input => {"placeholder", "value", "force", "action", "flex"}
    case Actions => {"items", "variant", "flex"}
    case Progress => {"value", "label", "variant", "state", "flex"}
    case Other(_) => {}
  }

  function Quoted(s: string): RawValue { RawValue("\"" + s + "\"", Str(s)) }
  const ZERO := RawValue("0", Int(0))
  const EMPTY_OBJECT := RawValue("{}", Obj(map[]))
  const EMPTY_ARRAY := RawValue("[]", Arr([]))
  const FALSE_VALUE := RawValue("false", Bool(false))

  function Defaults(t: NodeType): Props {
    match t
    case Box => map["dir" := Quoted("col"), "padding" := ZERO, "gap" := ZERO, "border" := Quoted("none"),
                    "style" := EMPTY_OBJECT, "variant" := Quoted("plain"), "align" := Quoted("start"),
                    "responsive" := Quoted("none")]
    case Text => map["text" := Quoted(""), "style" := EMPTY_OBJECT, "variant" := Quoted("body")]
    case Viewport => map["height" := RawValue("10", Int(10)), "wrap" := RawValue("true", Bool(true)),
                         "follow_tail" := FALSE_VALUE, "scrollable" := FALSE_VALUE]
    case Table => map["columns" := EMPTY_ARRAY, "rows" := EMPTY_ARRAY, "selectable" := FALSE_VALUE,
                      "action" := Quoted(""), "variant" := Quoted("normal")]
    case Input => map["placeholder" := Quoted(""), "value" := Quoted(""), "action" := Quoted("")]
    case Actions => map["items" := EMPTY_ARRAY, "variant" := Quoted("inline")]
    case Progress => map["value" := ZERO, "label" := Quoted(""), "variant" := Quoted("bar"),
                         "state" := Quoted("normal")]
    case Other(_) => map[]
  }

  // ---- normalization ----

  datatype Normalized = Rejected(code: Code) | Accepted(props: Props, force: bool)

  function NormalizeProps(t: NodeType, raw: PropsArg, full: bool): Normalized {
    if !t.Valid() then Rejected(UnknownType)
    else if raw.NotObject? then Rejected(InvalidProps)
    else
      var patch := if raw.Fields? then raw.fields else map[];
      if !(patch.Keys <= AllowedProps(t)) then Rejected(InvalidProps)
      else if t.Input? && "force" in patch && !BoolLike(patch["force"].json) then Rejected(InvalidProps)
      else
        var force := t.Input? && "force" in patch && BoolOf(patch["force"].json);
        var kept := if t.Input? then patch - {"force"} else patch;
        var props := if full then Defaults(t) + kept else kept;
        if ValidNormalized(t, props) then Accepted(props, force) else Rejected(InvalidProps)
  }

  function MergeNormalized(t: NodeType, current: Props, raw: PropsArg): Normalized {
    var patch := NormalizeProps(t, raw, false);
    if patch.Rejected? then patch
    else if ValidNormalized(t, current + patch.props) then Accepted(current + patch.props, patch.force)
    else Rejected(InvalidProps)
  }

  /** The property names an operation states explicitly; `force` is never retained. */
  function ExplicitKeys(raw: PropsArg): set<string> {
    if raw.Fields? then raw.fields.Keys - {"force"} else {}
  }

  function ValidateOperation(op: Operation, limits: Limits): Result {
    if op.v != VERSION then Some(VersionMismatch)
    else if op.opSeq < 0 then Some(InvalidSequence)
    else match op.op
      case OpUpsert =>
        if op.id == "" then Some(MissingField)
        else if !op.kind.Valid() then Some(UnknownType)
        else if op.props.Size() > limits.maxMessageBytes then Some(MessageTooLarge)
        else (match NormalizeProps(op.kind, op.props, true)
              case Rejected(code) => Some(code)
              case Accepted(_, _) => None)
      case OpProps =>
        if op.props.Size() > limits.maxMessageBytes then Some(MessageTooLarge)
        else if op.id == "" then Some(MissingField)
        else if op.props.Missing? then Some(MissingField)
        else if op.props.NotObject? then Some(InvalidProps)
        else None
      case OpText =>
        if op.id == "" then Some(MissingField)
        else if |op.text| > limits.maxTextBytesPerNode then Some(TextTooLarge)
        else None
      case OpRemove => if op.id == "" then Some(MissingField) else None
      case OpFocus => if op.id == "" then Some(MissingField) else None
      case OpCommit => None
      case OpOther => Some(UnknownOp)
  }
}

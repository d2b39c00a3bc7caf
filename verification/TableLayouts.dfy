/**
 The table planner (adapter/bubbletea/table_layout.go): readable floors, the levelling shrink, the
 choice of a presentation mode, the master and detail panes and the row window.
 */
module TableLayouts {
  import opened Totals

  const MIN_COLUMN := 3
  const SELECTABLE_PREFIX := 2
  const PANE_SEPARATOR := 3

  /** `titleCells` is the display width of the sanitized title. */
  datatype Column = Column(width: int, titleCells: nat)

  datatype Mode = Full | Compressed | MasterDetail | Records

  datatype Variant = Normal | Compact | Dense

  datatype Table = Table(
    available: int, height: int, columns: seq<Column>, rowCount: int, selectable: bool,
    selectedRow: int, rowOffset: int, variant: Variant)

  datatype Plan = Plan(
    mode: Mode, widths: seq<int>, readable: seq<int>, visible: seq<int>, left: int, right: int,
    rowStart: int, rowEnd: int)

  function Max(a: int, b: int): int { if a >= b then a else b }
  function Min(a: int, b: int): int { if a <= b then a else b }

  // ---- preferred widths and readable floors ----

  function Preferred(c: Column): int { Max(c.width, MIN_COLUMN) }

  function CeilMulDiv(value: int, numerator: int, denominator: int): int {
    if value <= 0 || numerator <= 0 || denominator <= 0 then 0
    else (value * numerator + denominator - 1) / denominator
  }

  /** Three quarters of the preferred width, or the title if that is wider, but never more than preferred. */
  function Floor(c: Column): (r: int)
    ensures MIN_COLUMN <= r <= Preferred(c)
    ensures 4 * r >= 3 * Preferred(c)
    ensures r >= Min(c.titleCells, Preferred(c))
  {
    Min(Max(Max(CeilMulDiv(Preferred(c), 3, 4), MIN_COLUMN), Min(c.titleCells, Preferred(c))), Preferred(c))
  }

  function PreferredAll(cols: seq<Column>): (r: seq<int>)
    ensures |r| == |cols|
  {
    seq(|cols|, i requires 0 <= i < |cols| => Preferred(cols[i]))
  }

  function FloorAll(cols: seq<Column>): (r: seq<int>)
    ensures |r| == |cols|
  {
    seq(|cols|, i requires 0 <= i < |cols| => Floor(cols[i]))
  }

  // ---- the levelling shrink: the closed form ----

  /** A width cut down to `cap`, but not below its floor. */
  function Cut(width: int, floor: int, cap: int): int {
    if width <= floor then width else Max(floor, Min(width, cap))
  }

  /** Columns left of `turn` are cut to `level`, the others to one more. */
  function Levelled(widths: seq<int>, floors: seq<int>, level: int, turn: nat): (r: seq<int>)
    requires |widths| == |floors|
    ensures |r| == |widths|
  {
    seq(|widths|, i requires 0 <= i < |widths| => Cut(widths[i], floors[i], if i < turn then level else level + 1))
  }

  /** The first of the widest columns above their floors, or |out|. */
  predicate FirstWidest(out: seq<int>, floors: seq<int>, w: nat)
    requires |out| == |floors|
  {
    && w <= |out|
    && (w == |out| ==> forall i :: 0 <= i < |out| ==> out[i] <= floors[i])
    && (w < |out| ==>
          && out[w] > floors[w]
          && (forall i :: 0 <= i < w && out[i] > floors[i] ==> out[i] < out[w])
          && (forall i :: w < i < |out| && out[i] > floors[i] ==> out[i] <= out[w]))
  }

  lemma AtFloors(out: seq<int>, floors: seq<int>)
    requires |out| == |floors| && FirstWidest(out, floors, |out|)
    ensures forall i :: 0 <= i < |out| ==> out[i] <= floors[i]
  {
  }

  lemma LevelNext(widths: seq<int>, floors: seq<int>, level: int, turn: nat, w: nat)
    requires |widths| == |floors|
    requires var out := Levelled(widths, floors, level, turn); FirstWidest(out, floors, w) && w < |widths|
    ensures var out := Levelled(widths, floors, level, turn);
      out[w := out[w] - 1] == Levelled(widths, floors, out[w] - 1, w + 1)
  {
  }

  lemma LevelStart(widths: seq<int>, floors: seq<int>, level: int)
    requires |widths| == |floors| && forall i :: 0 <= i < |widths| ==> widths[i] <= level
    ensures Levelled(widths, floors, level, 0) == widths
  {
  }

  /** The total decides the levelled widths. */
  lemma LevelUnique(widths: seq<int>, floors: seq<int>, l: int, t: nat, l': int, t': nat)
    requires |widths| == |floors|
    requires Total(Levelled(widths, floors, l, t)) == Total(Levelled(widths, floors, l', t'))
    requires t <= |widths| && t' <= |widths|
    ensures Levelled(widths, floors, l, t) == Levelled(widths, floors, l', t')
  {
    var a, b := Levelled(widths, floors, l, t), Levelled(widths, floors, l', t');
    if l < l' || (l == l' && t >= t') {
      TotalLe(a, b);
    } else {
      TotalLe(b, a);
    }
  }

  function FloorsFor(floors: seq<int>, n: nat): (r: seq<int>)
    ensures |r| == n
  {
    seq(n, i requires 0 <= i < n => if i < |floors| && floors[i] > MIN_COLUMN then floors[i] else MIN_COLUMN)
  }

  method FindWidest(out: seq<int>, floors: seq<int>) returns (widest: int)
    ensures -1 <= widest < |out|
    ensures FirstWidest(out, FloorsFor(floors, |out|), if widest < 0 then |out| else widest)
  {
    var all := FloorsFor(floors, |out|);
    widest := -1;
    for i := 0 to |out|
      invariant -1 <= widest < i
      invariant widest < 0 ==> forall j :: 0 <= j < i ==> out[j] <= all[j]
      invariant widest >= 0 ==>
        && out[widest] > all[widest]
        && (forall j :: 0 <= j < widest && out[j] > all[j] ==> out[j] < out[widest])
        && (forall j :: widest < j < i && out[j] > all[j] ==> out[j] <= out[widest])
    {
      var floor := MIN_COLUMN;
      if i < |floors| && floors[i] > floor { floor := floors[i]; }
      if out[i] > floor && (widest < 0 || out[i] > out[widest]) { widest := i; }
    }
  }

  /** Takes cells off the widest column until the budget is met or every column is at its floor. */
  method ShrinkToFloors(widths: seq<int>, floors: seq<int>, budget: int)
    returns (out: seq<int>, ghost level: int, ghost turn: nat)
    ensures |out| == |widths| && turn <= |widths|
    ensures out == Levelled(widths, FloorsFor(floors, |widths|), level, turn)
    ensures Total(widths) <= budget ==> out == widths
    ensures Total(widths) > budget ==> Total(out) >= budget
    ensures Total(out) > budget ==> forall i :: 0 <= i < |out| ==> out[i] <= FloorsFor(floors, |widths|)[i]
  {
    ghost var all := FloorsFor(floors, |widths|);
    out, turn := widths, 0;
    level := Widest(widths);
    LevelStart(widths, all, level);
    assert Shrinking(widths, all, budget, out, level, turn);
    hide *;
    var sum := SumInts(out);
    while sum > budget
      invariant sum == Total(out) && Shrinking(widths, all, budget, out, level, turn)
      decreases sum - budget
    {
      var widest := FindWidest(out, floors);
      ShrinkingParts(widths, all, budget, out, level, turn);
      if widest < 0 {
        AtFloors(out, all);
        return;
      }
      ShrinkingNext(widths, all, budget, out, level, turn, widest);
      level, turn := out[widest] - 1, widest + 1;
      out := out[widest := out[widest] - 1];
      sum := SumInts(out);
    }
    ShrinkingParts(widths, all, budget, out, level, turn);
  }

  /** The widths are levelled, and not below the budget unless they started there. */
  ghost predicate Shrinking(widths: seq<int>, all: seq<int>, budget: int, out: seq<int>, level: int, turn: nat) {
    && |out| == |widths| == |all| && turn <= |widths|
    && out == Levelled(widths, all, level, turn)
    && if Total(widths) <= budget then out == widths else Total(out) >= budget
  }

  lemma ShrinkingParts(widths: seq<int>, all: seq<int>, budget: int, out: seq<int>, level: int, turn: nat)
    requires Shrinking(widths, all, budget, out, level, turn)
    ensures |out| == |widths| == |all| && turn <= |widths| && out == Levelled(widths, all, level, turn)
    ensures if Total(widths) <= budget then out == widths else Total(out) >= budget
  {
    hide Levelled;
    hide Total;
  }

  lemma ShrinkingNext(widths: seq<int>, all: seq<int>, budget: int, out: seq<int>, level: int, turn: nat, w: nat)
    requires Shrinking(widths, all, budget, out, level, turn) && Total(out) > budget && w < |out|
    requires |out| == |all| && FirstWidest(out, all, w)
    ensures var next := out[w := out[w] - 1];
      Total(next) == Total(out) - 1 && Shrinking(widths, all, budget, next, out[w] - 1, w + 1)
  {
    LevelNext(widths, all, level, turn, w);
    TotalUpdate(out, w, out[w] - 1);
    hide Levelled;
    hide Total;
    hide FirstWidest;
  }

  ghost function Widest(widths: seq<int>): (m: int)
    ensures forall i :: 0 <= i < |widths| ==> widths[i] <= m
  {
    if widths == [] then 0 else Max(Widest(widths[..|widths| - 1]), widths[|widths| - 1])
  }

  // ---- master and detail panes ----

  function MasterMin(readable: seq<int>): int {
    SELECTABLE_PREFIX + if |readable| > 0 then readable[0] else MIN_COLUMN
  }

  /** The widest `title: value` line of the first `k` columns. */
  function DetailMin(cols: seq<Column>, readable: seq<int>, k: nat): (r: int)
    requires k <= |cols| == |readable|
    ensures r >= MIN_COLUMN && forall i :: 0 <= i < k ==> r >= cols[i].titleCells + 2 + readable[i]
  {
    if k == 0 then MIN_COLUMN
    else Max(DetailMin(cols, readable, k - 1), cols[k - 1].titleCells + 2 + readable[k - 1])
  }

  predicate Splittable(t: Table) {
    var readable := FloorAll(t.columns);
    && t.selectable && t.rowCount > 0 && |t.columns| >= 4
    && t.available >= MasterMin(readable) + PANE_SEPARATOR + DetailMin(t.columns, readable, |t.columns|)
  }

  function LeftPane(t: Table): int {
    var readable := FloorAll(t.columns);
    Min(Max(t.available * 2 / 5, MasterMin(readable)),
        t.available - PANE_SEPARATOR - DetailMin(t.columns, readable, |t.columns|))
  }

  /** The cells used by the first `k` columns. */
  function Used(widths: seq<int>, separator: int, k: nat): int
    requires k <= |widths|
  {
    if k == 0 then 0
    else Used(widths, separator, k - 1) + Max(widths[k - 1], MIN_COLUMN) + if k > 1 then separator else 0
  }

  /** The longest prefix that fits, counted on from `k`. */
  function FitFrom(widths: seq<int>, separator: int, available: int, k: nat): (r: nat)
    requires k <= |widths| && separator >= 0
    ensures k <= r <= |widths|
    ensures r > k ==> Used(widths, separator, r) <= available
    ensures r < |widths| ==> Used(widths, separator, r + 1) > available
    decreases |widths| - k
  {
    if k < |widths| && Used(widths, separator, k + 1) <= available
    then FitFrom(widths, separator, available, k + 1) else k
  }

  function Indexes(n: nat): seq<int> { seq(n, i => i) }

  method DetailMinimum(cols: seq<Column>, readable: seq<int>) returns (most: int)
    requires |cols| == |readable|
    ensures most == DetailMin(cols, readable, |cols|)
  {
    most := MIN_COLUMN;
    for i := 0 to |cols|
      invariant most == DetailMin(cols, readable, i)
    {
      var line := cols[i].titleCells + 2 + readable[i];
      if line > most { most := line; }
    }
  }

  method MasterColumnPrefix(widths: seq<int>, paneWidth: int, prefix: int, separator: nat) returns (visible: seq<int>)
    ensures var available := paneWidth - prefix;
      visible == if available < MIN_COLUMN || widths == [] then []
                 else Indexes(Max(FitFrom(widths, separator, available, 0), 1))
  {
    var available := paneWidth - prefix;
    if available < MIN_COLUMN || |widths| == 0 { return []; }
    var used := 0;
    visible := [];
    var i := 0;
    while i < |widths|
      invariant 0 <= i <= |widths| && visible == Indexes(i) && used == Used(widths, separator, i)
      invariant FitFrom(widths, separator, available, i) == FitFrom(widths, separator, available, 0)
    {
      var width := widths[i];
      if width < MIN_COLUMN { width := MIN_COLUMN; }
      var more := width;
      if |visible| > 0 { more := more + separator; }
      if used + more > available { break; }
      visible := visible + [i];
      used := used + more;
      i := i + 1;
    }
    if |visible| == 0 { visible := [0]; }
  }

  // ---- the row window ----

  function Clamp(x: int, lo: int, hi: int): int { if x < lo then lo else if x > hi then hi else x }

  /** First row shown, and the row after the last. */
  method VisibleRowWindow(rowCount: int, selectedRow: int, oldOffset: int, rows: int) returns (start: int, end: int)
    ensures (start, end) == Window(rowCount, selectedRow, oldOffset, rows)
  {
    if rowCount <= 0 || rows <= 0 { return 0, 0; }
    var capacity, selected, offset := rows, selectedRow, oldOffset;
    if capacity > rowCount { capacity := rowCount; }
    if selected < 0 { selected := 0; }
    if selected >= rowCount { selected := rowCount - 1; }
    var maxStart := rowCount - capacity;
    if offset < 0 { offset := 0; }
    if offset > maxStart { offset := maxStart; }
    if selected < offset {
      offset := selected;
    } else if selected >= offset + capacity {
      offset := selected - capacity + 1;
    }
    if offset > maxStart { offset := maxStart; }
    return offset, offset + capacity;
  }

  /** The old offset, moved as little as a window that shows the selection needs. */
  function Window(rowCount: int, selectedRow: int, offset: int, rows: int): (int, int) {
    if rowCount <= 0 || rows <= 0 then (0, 0)
    else
      var capacity := Min(rows, rowCount);
      var selected := Clamp(selectedRow, 0, rowCount - 1);
      var start := Clamp(offset, Max(0, selected - capacity + 1), Min(selected, rowCount - capacity));
      (start, start + capacity)
  }

  /** A window of the right size inside the table that shows the selected row. */
  predicate Shows(rowCount: int, selectedRow: int, rows: int, start: int) {
    var capacity, selected := Min(rows, rowCount), Clamp(selectedRow, 0, rowCount - 1);
    0 <= start <= rowCount - capacity && start <= selected < start + capacity
  }

  function Distance(a: int, b: int): nat { if a <= b then b - a else a - b }

  /** The window is the projection of the old offset onto the windows that show the selection ... */
  lemma WindowIsNearest(rowCount: int, selectedRow: int, offset: int, rows: int, other: int)
    requires rowCount > 0 && rows > 0
    ensures var start := Window(rowCount, selectedRow, offset, rows).0;
      && Shows(rowCount, selectedRow, rows, start)
      && (Shows(rowCount, selectedRow, rows, other) && other != start ==>
            Distance(start, offset) < Distance(other, offset))
  {
  }

  /** ... so showing the selection again does not move it. */
  lemma WindowIsStable(rowCount: int, selectedRow: int, offset: int, rows: int)
    ensures var w := Window(rowCount, selectedRow, offset, rows); Window(rowCount, selectedRow, w.0, rows) == w
    ensures Shows(rowCount, selectedRow, rows, offset) && rowCount > 0 && rows > 0 ==>
      Window(rowCount, selectedRow, offset, rows).0 == offset
  {
  }

  // ---- the plan ----

  function Separator(v: Variant): nat { if v.Normal? then 3 else 1 }

  /** Everything but the columns themselves. */
  function Chrome(t: Table): int {
    (if t.selectable then SELECTABLE_PREFIX else 0) + Separator(t.variant) * Max(|t.columns| - 1, 0)
  }

  function ModeOf(t: Table): Mode {
    if t.columns == [] || t.available <= 0 then Full
    else if Chrome(t) + Total(PreferredAll(t.columns)) <= t.available then Full
    else if Chrome(t) + Total(FloorAll(t.columns)) <= t.available then Compressed
    else if Splittable(t) then MasterDetail
    else Records
  }

  function RowCapacity(t: Table, mode: Mode): int {
    if t.rowCount <= 0 then 0
    else
      var height := Max(t.height, 1);
      var capacity := if mode.Records? then height / (|t.columns| + 1) else height - if t.variant.Dense? then 1 else 2;
      Min(Max(capacity, 1), t.rowCount)
  }

  method PreferredTableWidths(cols: seq<Column>) returns (widths: seq<int>)
    ensures widths == PreferredAll(cols)
  {
    widths := [];
    for i := 0 to |cols|
      invariant widths == PreferredAll(cols)[..i]
    {
      var width := cols[i].width;
      if width < MIN_COLUMN { width := MIN_COLUMN; }
      widths := widths + [width];
    }
  }

  method ReadableTableWidths(cols: seq<Column>) returns (floors: seq<int>)
    ensures floors == FloorAll(cols)
  {
    var preferred := PreferredTableWidths(cols);
    floors := [];
    for i := 0 to |cols|
      invariant floors == FloorAll(cols)[..i]
    {
      var most := preferred[i];
      var floor := CeilMulDiv(most, 3, 4);
      if floor < MIN_COLUMN { floor := MIN_COLUMN; }
      var observed := cols[i].titleCells;
      if observed > most { observed := most; }
      if observed > floor { floor := observed; }
      if floor > most { floor := most; }
      floors := floors + [floor];
    }
  }

  /** What the plan promises in each mode, apart from the rows. */
  ghost predicate Planned(t: Table, p: Plan) {
    && p.mode == ModeOf(t) && p.readable == FloorAll(t.columns)
    && (p.mode.Compressed? ==> exists level, turn :: LevelledTo(t, p.widths, level, turn))
    && (!p.mode.Compressed? ==> p.widths == PreferredAll(t.columns))
    && (if p.mode.MasterDetail?
        then p.left == LeftPane(t) && p.right == t.available - PANE_SEPARATOR - p.left
             && p.visible == MasterColumns(t, p.left)
        else p.left == 0 && p.right == 0 && p.visible == Indexes(|t.columns|))
    && (p.rowStart, p.rowEnd) == Window(t.rowCount, t.selectedRow, t.rowOffset, RowCapacity(t, p.mode))
  }

  predicate LevelledTo(t: Table, widths: seq<int>, level: int, turn: nat) {
    && turn <= |t.columns|
    && widths == Levelled(PreferredAll(t.columns), FloorAll(t.columns), level, turn)
    && Chrome(t) + Total(widths) == t.available
  }

  function MasterColumns(t: Table, left: int): seq<int> {
    var available := left - if t.selectable then SELECTABLE_PREFIX else 0;
    if available < MIN_COLUMN || t.columns == [] then []
    else Indexes(Max(FitFrom(FloorAll(t.columns), Separator(t.variant), available, 0), 1))
  }

  method PlanTableLayout(t: Table) returns (p: Plan)
    ensures Planned(t, p)
  {
    hide Floor;
    hide Preferred;
    hide Total;
    hide Splittable;
    hide LeftPane;
    hide MasterColumns;
    hide LevelledTo;
    hide Window;
    hide Indexes;
    hide RowCapacity;
    hide PreferredAll;
    hide FloorAll;
    var widths := PreferredTableWidths(t.columns);
    var readable := ReadableTableWidths(t.columns);
    p := Plan(Full, widths, readable, Indexes(|t.columns|), 0, 0, 0, 0);
    if |t.columns| != 0 && t.available > 0 {
      var prefix := if t.selectable then SELECTABLE_PREFIX else 0;
      var separator := Separator(t.variant);
      var separators := separator * Max(|t.columns| - 1, 0);
      var preferredTotal := SumInts(widths);
      var readableTotal := SumInts(readable);
      if prefix + separators + preferredTotal > t.available {
        if prefix + separators + readableTotal <= t.available {
          var cut := Compress(t, widths, readable);
          p := p.(mode := Compressed, widths := cut);
        } else {
          var eligible := MasterDetailEligible(t, readable);
          if eligible {
            var left, visible := SplitPanes(t, readable);
            var right := t.available - PANE_SEPARATOR - left;
            p := p.(mode := MasterDetail, left := left, right := right, visible := visible);
          } else {
            p := p.(mode := Records);
          }
        }
      }
    }
    var start, end := VisibleRowWindow(t.rowCount, t.selectedRow, t.rowOffset, RowCapacity(t, p.mode));
    p := p.(rowStart := start, rowEnd := end);
  }

  method Compress(t: Table, widths: seq<int>, readable: seq<int>) returns (cut: seq<int>)
    requires widths == PreferredAll(t.columns) && readable == FloorAll(t.columns)
    requires Chrome(t) + Total(readable) <= t.available < Chrome(t) + Total(widths)
    ensures exists level, turn :: LevelledTo(t, cut, level, turn)
  {
    ghost var level, turn;
    cut, level, turn := ShrinkToFloors(widths, readable, t.available - Chrome(t));
    assert FloorsFor(readable, |widths|) == readable;
    hide Chrome;
    if Total(cut) > t.available - Chrome(t) { TotalLe(cut, readable); }
    assert LevelledTo(t, cut, level, turn);
  }

  method MasterDetailEligible(t: Table, readable: seq<int>) returns (ok: bool)
    requires readable == FloorAll(t.columns)
    ensures ok <==> Splittable(t)
  {
    if !t.selectable || t.rowCount <= 0 || |t.columns| < 4 { return false; }
    var detail := DetailMinimum(t.columns, readable);
    ok := t.available >= MasterMin(readable) + PANE_SEPARATOR + detail;
  }

  method SplitPanes(t: Table, readable: seq<int>) returns (left: int, visible: seq<int>)
    requires readable == FloorAll(t.columns) && t.available >= 0
    ensures left == LeftPane(t) && visible == MasterColumns(t, left)
  {
    hide FitFrom;
    hide Floor;
    left := MasterDetailLeft(t, readable);
    var prefix := if t.selectable then SELECTABLE_PREFIX else 0;
    visible := MasterColumnPrefix(readable, left, prefix, Separator(t.variant));
  }

  method MasterDetailLeft(t: Table, readable: seq<int>) returns (left: int)
    requires readable == FloorAll(t.columns) && t.available >= 0
    ensures left == LeftPane(t)
  {
    var detail := DetailMinimum(t.columns, readable);
    left := t.available * 2 / 5;
    if left < MasterMin(readable) { left := MasterMin(readable); }
    var most := t.available - PANE_SEPARATOR - detail;
    if left > most { left := most; }
  }

  // ---- which mode is chosen ----

  /** The readable floor is the least width with these properties. */
  lemma FloorIsLeast(c: Column, r: int)
    requires MIN_COLUMN <= r <= Preferred(c) && 4 * r >= 3 * Preferred(c) && r >= Min(c.titleCells, Preferred(c))
    ensures Floor(c) <= r
  {
  }

  /** Widths between floor and preferred width for all columns, with which the row fits. */
  predicate Readable(t: Table, widths: seq<int>) {
    && |widths| == |t.columns|
    && (forall i :: 0 <= i < |widths| ==> Floor(t.columns[i]) <= widths[i] <= Preferred(t.columns[i]))
    && Chrome(t) + Total(widths) <= t.available
  }

  lemma ReadableFloors(t: Table, widths: seq<int>)
    requires Readable(t, widths)
    ensures Chrome(t) + Total(FloorAll(t.columns)) <= t.available
  {
    TotalLe(FloorAll(t.columns), widths);
    hide Floor;
    hide Preferred;
    hide Total;
    hide Chrome;
  }

  lemma FloorsReadable(t: Table)
    requires Chrome(t) + Total(FloorAll(t.columns)) <= t.available
    ensures Readable(t, FloorAll(t.columns))
  {
    FloorRange(t.columns);
    hide Floor;
    hide Preferred;
    hide Total;
    hide Chrome;
  }

  /** The width beside a separator: enough for the first column, and for the widest line of details. */
  predicate Split(t: Table, left: int, right: int) {
    && left + PANE_SEPARATOR + right == t.available
    && left >= SELECTABLE_PREFIX + (if t.columns == [] then MIN_COLUMN else Floor(t.columns[0]))
    && right >= MIN_COLUMN
    && forall i :: 0 <= i < |t.columns| ==> right >= t.columns[i].titleCells + 2 + Floor(t.columns[i])
  }

  lemma {:induction false} DetailIsLeast(cols: seq<Column>, readable: seq<int>, k: nat, r: int)
    requires k <= |cols| == |readable| && r >= MIN_COLUMN
    requires forall i :: 0 <= i < k ==> r >= cols[i].titleCells + 2 + readable[i]
    ensures r >= DetailMin(cols, readable, k)
    decreases k
  {
    if k > 0 { DetailIsLeast(cols, readable, k - 1, r); }
  }

  lemma SplitMeans(t: Table, left: int, right: int)
    ensures Split(t, left, right) <==>
      && left + PANE_SEPARATOR + right == t.available
      && left >= MasterMin(FloorAll(t.columns)) && right >= DetailMin(t.columns, FloorAll(t.columns), |t.columns|)
  {
    var readable := FloorAll(t.columns);
    FloorRange(t.columns);
    hide Floor;
    hide Preferred;
    if Split(t, left, right) { DetailIsLeast(t.columns, readable, |t.columns|, right); }
    hide DetailMin;
  }

  lemma SplittableMeans(t: Table)
    ensures Splittable(t) <==>
      t.selectable && t.rowCount > 0 && |t.columns| >= 4 && exists left, right :: Split(t, left, right)
  {
    var detail := DetailMin(t.columns, FloorAll(t.columns), |t.columns|);
    var left := t.available - PANE_SEPARATOR - detail;
    SplitMeans(t, left, detail);
    if exists l, r :: Split(t, l, r) {
      var l, r :| Split(t, l, r);
      SplitMeans(t, l, r);
    }
    hide Split;
    hide DetailMin;
    hide FloorAll;
  }

  /**
   The first mode that can show the table readably is chosen: all columns at their preferred widths;
   else all columns at widths not below their floors; else, for a selectable table with rows and at
   least four columns, two panes wide enough; else records.
   */
  lemma ModeExactly(t: Table)
    requires t.columns != [] && t.available > 0
    ensures var full, readable := Chrome(t) + Total(PreferredAll(t.columns)) <= t.available, exists w :: Readable(t, w);
      var panes := t.selectable && t.rowCount > 0 && |t.columns| >= 4 && exists left, right :: Split(t, left, right);
      && (ModeOf(t) == Full <==> full)
      && (ModeOf(t) == Compressed <==> !full && readable)
      && (ModeOf(t) == MasterDetail <==> !full && !readable && panes)
      && (ModeOf(t) == Records <==> !full && !readable && !panes)
  {
    SplittableMeans(t);
    if exists w :: Readable(t, w) {
      var w :| Readable(t, w);
      ReadableFloors(t, w);
    }
    if Chrome(t) + Total(FloorAll(t.columns)) <= t.available { FloorsReadable(t); }
    hide Readable;
    hide Split;
    hide Splittable;
    hide Chrome;
    hide Total;
    hide PreferredAll;
    hide FloorAll;
  }

  /** The master pane is as near to two fifths of the width as the panes allow. */
  lemma PaneIsNearest(t: Table, p: Plan, left: int, right: int)
    requires Planned(t, p) && p.mode.MasterDetail?
    requires Split(t, left, right)
    ensures Split(t, p.left, p.right)
    ensures Distance(p.left, t.available * 2 / 5) <= Distance(left, t.available * 2 / 5)
  {
    SplitMeans(t, left, right);
    SplitMeans(t, p.left, p.right);
    PaneBounds(t);
    hide Split;
    hide Window;
    hide RowCapacity;
    hide MasterColumns;
    hide ModeOf;
    hide FloorAll;
    hide DetailMin;
  }

  /** The lines that many rows take in a mode: a record is a line for each column and one between. */
  function Lines(t: Table, mode: Mode, rows: nat): int {
    if mode.Records? then rows * (|t.columns| + 1) else rows + if t.variant.Dense? then 1 else 2
  }

  /** As many rows are shown as fit the height, but at least one, and not more than there are. */
  lemma RowsFill(t: Table, p: Plan)
    requires Planned(t, p) && t.rowCount > 0
    ensures var shown, height := p.rowEnd - p.rowStart, if t.height < 1 then 1 else t.height;
      && 1 <= shown <= t.rowCount
      && (shown == 1 || Lines(t, p.mode, shown) <= height)
      && (shown == t.rowCount || Lines(t, p.mode, shown + 1) > height)
  {
    CapacityFills(t, p.mode);
    WindowSize(t.rowCount, t.selectedRow, t.rowOffset, RowCapacity(t, p.mode));
    hide Window;
    hide RowCapacity;
    hide Lines;
    hide ModeOf;
    hide FloorAll;
    hide LeftPane;
    hide MasterColumns;
  }

  lemma WindowSize(rowCount: int, selectedRow: int, offset: int, rows: int)
    requires 1 <= rows <= rowCount
    ensures var (start, end) := Window(rowCount, selectedRow, offset, rows); end - start == rows
  {
  }

  lemma CapacityFills(t: Table, mode: Mode)
    requires t.rowCount > 0
    ensures var shown, height := RowCapacity(t, mode), if t.height < 1 then 1 else t.height;
      && 1 <= shown <= t.rowCount
      && (shown == 1 || Lines(t, mode, shown) <= height)
      && (shown == t.rowCount || Lines(t, mode, shown + 1) > height)
  {
    if mode.Records? { RecordLines(if t.height < 1 then 1 else t.height, |t.columns| + 1, RowCapacity(t, mode)); }
  }

  lemma RecordLines(height: nat, lines: nat, shown: nat)
    requires lines > 0
    ensures shown <= height / lines ==> shown * lines <= height
    ensures shown >= height / lines ==> (shown + 1) * lines > height
  {
    var q := height / lines;
    assert q * lines <= height < (q + 1) * lines;
    if shown <= q { assert (q - shown) * lines >= 0; assert (q - shown) * lines == q * lines - shown * lines; }
    if shown >= q {
      assert (shown - q) * lines >= 0;
      assert (shown + 1) * lines - (q + 1) * lines == (shown - q) * lines;
    }
  }

  // ---- what the modes promise ----

  /** Compressed: the row is filled exactly, every column is readable, and the shrinking is even. */
  lemma CompressedFills(t: Table, p: Plan)
    requires Planned(t, p) && p.mode.Compressed?
    ensures |p.widths| == |t.columns| && Chrome(t) + Total(p.widths) == t.available
    ensures forall i :: 0 <= i < |t.columns| ==> Floor(t.columns[i]) <= p.widths[i] <= Preferred(t.columns[i])
    ensures forall i, j | 0 <= i < |t.columns| && 0 <= j < |t.columns| ::
      p.widths[i] > Floor(t.columns[i]) && p.widths[j] < Preferred(t.columns[j]) ==> p.widths[i] <= p.widths[j] + 1
  {
    var level, turn :| LevelledTo(t, p.widths, level, turn);
    hide *;
    FloorRange(t.columns);
    LevelledRange(PreferredAll(t.columns), FloorAll(t.columns), level, turn);
    FromLevelled(t, p.widths, level, turn);
  }

  lemma FromLevelled(t: Table, widths: seq<int>, level: int, turn: nat)
    requires LevelledTo(t, widths, level, turn)
    ensures Chrome(t) + Total(widths) == t.available
    ensures widths == Levelled(PreferredAll(t.columns), FloorAll(t.columns), level, turn)
  {
    hide Chrome;
    hide Total;
    hide Levelled;
  }

  lemma LevelledRange(widths: seq<int>, floors: seq<int>, level: int, turn: nat)
    requires |widths| == |floors| && forall i :: 0 <= i < |widths| ==> floors[i] <= widths[i]
    ensures var r := Levelled(widths, floors, level, turn);
      && (forall i :: 0 <= i < |r| ==> floors[i] <= r[i] <= widths[i])
      && forall i, j | 0 <= i < |r| && 0 <= j < |r| :: r[i] > floors[i] && r[j] < widths[j] ==> r[i] <= r[j] + 1
  {
  }

  lemma FloorRange(cols: seq<Column>)
    ensures forall i :: 0 <= i < |cols| ==>
      && FloorAll(cols)[i] == Floor(cols[i]) && PreferredAll(cols)[i] == Preferred(cols[i])
      && MIN_COLUMN <= Floor(cols[i]) <= Preferred(cols[i])
  {
    hide Floor;
    hide Preferred;
  }

  /**
   Master and detail: the panes and their separator fill the width, both are wide enough, and the
   master shows the longest column prefix that fits: at least one column and never all of them.
   */
  lemma PanesFit(t: Table, p: Plan)
    requires Planned(t, p) && p.mode.MasterDetail?
    ensures p.left + PANE_SEPARATOR + p.right == t.available
    ensures p.left >= MasterMin(p.readable) && p.right >= DetailMin(t.columns, p.readable, |t.columns|)
    ensures var k := |p.visible|;
      && p.visible == Indexes(k) && 1 <= k < |t.columns|
      && SELECTABLE_PREFIX + Used(p.readable, Separator(t.variant), k) <= p.left
      && SELECTABLE_PREFIX + Used(p.readable, Separator(t.variant), k + 1) > p.left
  {
    var separator, available := Separator(t.variant), p.left - SELECTABLE_PREFIX;
    PaneBounds(t);
    hide ModeOf;
    hide LeftPane;
    hide Floor;
    hide Window;
    hide RowCapacity;
    FirstAndAll(t, p.readable);
    hide FloorAll;
    hide Used;
    hide DetailMin;
  }

  lemma PaneBounds(t: Table)
    requires ModeOf(t).MasterDetail?
    ensures t.selectable && |t.columns| >= 4
    ensures var readable := FloorAll(t.columns);
      && MasterMin(readable) <= LeftPane(t)
      && LeftPane(t) <= t.available - PANE_SEPARATOR - DetailMin(t.columns, readable, |t.columns|)
      && Chrome(t) + Total(readable) > t.available
  {
    hide Floor;
    hide DetailMin;
  }

  lemma FirstAndAll(t: Table, readable: seq<int>)
    requires readable == FloorAll(t.columns) && |t.columns| >= 4 && t.selectable
    ensures Used(readable, Separator(t.variant), 1) == readable[0] >= MIN_COLUMN
    ensures SELECTABLE_PREFIX + Used(readable, Separator(t.variant), |t.columns|) == Chrome(t) + Total(readable)
  {
    FloorRange(t.columns);
    assert Used(readable, Separator(t.variant), 0) == 0;
    UsedTotal(readable, Separator(t.variant), |t.columns|);
    TotalAll(readable);
    hide Floor;
    hide Total;
  }

  lemma {:induction false} UsedTotal(widths: seq<int>, separator: int, k: nat)
    requires k <= |widths| && forall i :: 0 <= i < k ==> widths[i] >= MIN_COLUMN
    ensures Used(widths, separator, k) == Total(widths[..k]) + separator * Max(k - 1, 0)
    decreases k
  {
    if k > 0 {
      UsedTotal(widths, separator, k - 1);
      TotalNext(widths, k - 1);
      if k > 1 { assert separator * (k - 1) == separator * (k - 2) + separator; }
    }
  }

  function Rank(m: Mode): nat {
    match m case Full => 0 case Compressed => 1 case MasterDetail => 2 case Records => 3
  }

  /** What full mode needs: nothing to show, or room for every preferred width. */
  predicate RoomForAll(t: Table, width: int) {
    t.columns == [] || Chrome(t) + Total(PreferredAll(t.columns)) <= width
  }

  /**
   Widening the terminal never moves the mode away from full. The one exception is a terminal of no
   width, which plans in full mode whatever the columns need: from there the mode stays full exactly
   when the wider terminal has no width either or has room for every preferred width.
   */
  lemma WideningHelps(t: Table, wider: int)
    requires t.available <= wider
    ensures Rank(ModeOf(t.(available := wider))) <= Rank(ModeOf(t))
       <==> t.available > 0 || wider <= 0 || RoomForAll(t, wider)
  {
  }

  /** One column of four cells in a terminal of no width. */
  const NARROW := Table(0, 10, [Column(4, 4)], 5, false, 0, 0, Normal)

  /** Widened from nothing to a single cell, a table goes from full mode to records. */
  lemma WideningFromNothing()
    ensures ModeOf(NARROW) == Full && ModeOf(NARROW.(available := 1)) == Records
  {
    TotalNext([4], 0);
    TotalAll([4]);
    assert PreferredAll(NARROW.columns) == [4] && FloorAll(NARROW.columns) == [4];
  }
}

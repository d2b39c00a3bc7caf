/**
 Row allocation (layout/flex.go): clamped bases, a round-robin shrink towards the minimums, and
 repeated proportional growth with caps.
 */
module Flex {
  import opened Totals

  /** 0 means unspecified, except for `grow`. */
  datatype FlexConstraint = FlexConstraint(grow: int, basis: int, minWidth: int, maxWidth: int)

  type Row = seq<FlexConstraint>

  function GapExtent(gap: int, children: nat): int {
    if gap <= 0 || children <= 1 then 0 else gap * (children - 1)
  }

  // ---- starting widths ----

  function Min(c: FlexConstraint): int { if c.minWidth < 1 then 1 else c.minWidth }

  function Start(c: FlexConstraint): int {
    var w := if c.basis < Min(c) then Min(c) else c.basis;
    var capped := if c.maxWidth > 0 && w > c.maxWidth then c.maxWidth else w;
    if capped < 1 then 1 else capped
  }

  function Mins(row: Row): (r: seq<int>)
    ensures |r| == |row|
  {
    seq(|row|, i requires 0 <= i < |row| => Min(row[i]))
  }
  function Starts(row: Row): (r: seq<int>)
    ensures |r| == |row|
  {
    seq(|row|, i requires 0 <= i < |row| => Start(row[i]))
  }

  // ---- shrinking: the closed form ----

  /** `cells` taken off, stopped at the minimum. */
  function Less(start: int, least: int, cells: nat): int {
    if start - cells > least then start - cells else if start > least then least else start
  }

  /** `rounds` cells off each child, and one more off the first `extra`. */
  function Shrunk(starts: seq<int>, mins: seq<int>, rounds: nat, extra: nat): seq<int>
    requires |starts| == |mins|
  {
    seq(|starts|, i requires 0 <= i < |starts| => Less(starts[i], mins[i], if i < extra then rounds + 1 else rounds))
  }

  /** Two closed forms of the same total are the same widths: the total decides the result. */
  lemma ShrinkUnique(starts: seq<int>, mins: seq<int>, r: nat, x: nat, r': nat, x': nat)
    requires |starts| == |mins| && x <= |starts| && x' <= |starts|
    requires Total(Shrunk(starts, mins, r, x)) == Total(Shrunk(starts, mins, r', x'))
    ensures Shrunk(starts, mins, r, x) == Shrunk(starts, mins, r', x')
  {
    if r < r' || (r == r' && x <= x') {
      TotalLe(Shrunk(starts, mins, r', x'), Shrunk(starts, mins, r, x));
    } else {
      TotalLe(Shrunk(starts, mins, r, x), Shrunk(starts, mins, r', x'));
    }
  }

  // ---- growing: one pass ----

  predicate Full(c: FlexConstraint, w: int) { c.maxWidth > 0 && w >= c.maxWidth }
  predicate Active(c: FlexConstraint, w: int) { c.grow > 0 && !Full(c, w) }

  function GrowOf(c: FlexConstraint, w: int): nat { if Active(c, w) then c.grow else 0 }

  function Grows(row: Row, widths: seq<int>): (r: seq<int>)
    requires |row| == |widths|
    ensures |r| == |row|
  {
    seq(|row|, i requires 0 <= i < |row| => GrowOf(row[i], widths[i]))
  }

  /** The whole part of a child's quota, as far as its maximum allows. */
  function Share(c: FlexConstraint, w: int, spare: nat, total: nat): int
    requires total > 0
  {
    if !Active(c, w) then 0
    else
      var share := spare * c.grow / total;
      if c.maxWidth > 0 && w + share > c.maxWidth then c.maxWidth - w else share
  }

  /** The fractional part, or -1 for a child that takes no part. */
  function Rem(c: FlexConstraint, w: int, spare: nat, total: nat): int
    requires total > 0
  {
    if Active(c, w) then spare * c.grow % total else -1
  }

  function Shares(row: Row, widths: seq<int>, spare: nat, total: nat): (r: seq<int>)
    requires |row| == |widths| && total > 0
    ensures |r| == |row|
  {
    seq(|row|, i requires 0 <= i < |row| => Share(row[i], widths[i], spare, total))
  }

  function Rems(row: Row, widths: seq<int>, spare: nat, total: nat): (r: seq<int>)
    requires |row| == |widths| && total > 0
    ensures |r| == |row|
  {
    seq(|row|, i requires 0 <= i < |row| => Rem(row[i], widths[i], spare, total))
  }

  predicate Eligible(row: Row, filled: seq<int>, rems: seq<int>, i: nat)
    requires |row| == |filled| == |rems| && i < |row|
  {
    rems[i] >= 0 && !Full(row[i], filled[i])
  }

  /** The first eligible child of `row[..k]` with the largest remainder, or |row|. */
  function Best(row: Row, filled: seq<int>, rems: seq<int>, k: nat): (b: nat)
    requires |row| == |filled| == |rems| && k <= |row|
    ensures b <= |row|
    ensures b == |row| ==> forall i :: 0 <= i < k ==> !Eligible(row, filled, rems, i)
    ensures b < |row| ==>
      && b < k && Eligible(row, filled, rems, b)
      && forall i :: 0 <= i < k && i != b && Eligible(row, filled, rems, i) ==> Beats(rems, b, i)
  {
    if k == 0 then |row|
    else
      var b := Best(row, filled, rems, k - 1);
      if Eligible(row, filled, rems, k - 1) && (b == |row| || rems[k - 1] > rems[b]) then k - 1 else b
  }

  /** Largest remainder first, ties to the lower index. */
  predicate Beats(rems: seq<int>, i: nat, j: nat)
    requires i < |rems| && j < |rems|
  {
    rems[i] > rems[j] || (rems[i] == rems[j] && i < j)
  }

  /** Hands out `left` cells, one at a time, each to the best child that has had none. */
  function Dealt(row: Row, widths: seq<int>, grants: seq<int>, rems: seq<int>, left: nat): (g: seq<int>)
    requires |row| == |widths| == |grants| == |rems|
    ensures |g| == |row|
    decreases left
  {
    var b := Best(row, Plus(widths, grants), rems, |row|);
    if left == 0 || b == |row| then grants
    else Dealt(row, widths, grants[b := grants[b] + 1], rems[b := -1], left - 1)
  }

  function Plus(a: seq<int>, b: seq<int>): (r: seq<int>)
    requires |a| == |b|
    ensures |r| == |a|
  {
    seq(|a|, i requires 0 <= i < |a| => a[i] + b[i])
  }

  /** What one pass hands out. */
  function Grants(row: Row, widths: seq<int>, spare: nat): (g: seq<int>)
    requires |row| == |widths|
    ensures |g| == |row|
  {
    var total := Total(Grows(row, widths));
    if total <= 0 then seq(|row|, _ => 0)
    else
      var shares := Shares(row, widths, spare, total);
      var left := spare - Total(shares);
      Dealt(row, widths, shares, Rems(row, widths, spare, total), if left < 0 then 0 else left)
  }

  // ---- what a pass means ----

  /** Had room for a cell and got none. */
  predicate Missed(row: Row, widths: seq<int>, shares: seq<int>, rems: seq<int>, g: seq<int>, i: nat)
    requires |row| == |widths| == |shares| == |rems| == |g| && i < |row|
  {
    g[i] == shares[i] && Eligible(row, Plus(widths, shares), rems, i)
  }

  /** `g` adds at most one cell to each share, only where there is room, and always to the best first. */
  ghost predicate Dealing(row: Row, widths: seq<int>, shares: seq<int>, rems: seq<int>, g: seq<int>) {
    && |row| == |widths| == |shares| == |rems| == |g|
    && (forall i :: 0 <= i < |row| ==> g[i] == shares[i] || g[i] == shares[i] + 1)
    && (forall i :: 0 <= i < |row| && g[i] != shares[i] ==> Eligible(row, Plus(widths, shares), rems, i))
    && (forall i, j :: 0 <= i < |row| && 0 <= j < |row| && g[i] != shares[i] && Missed(row, widths, shares, rems, g, j)
          ==> Beats(rems, i, j))
  }

  /** The remainders left when `g` is dealt: a child that had its extra cell is out. */
  function Spent(shares: seq<int>, rems: seq<int>, g: seq<int>): seq<int>
    requires |shares| == |rems| == |g|
  {
    seq(|g|, i requires 0 <= i < |g| => if g[i] == shares[i] then rems[i] else -1)
  }

  lemma {:induction false} DealtIs(row: Row, widths: seq<int>, shares: seq<int>, rems: seq<int>, g: seq<int>, left: nat)
    requires Dealing(row, widths, shares, rems, g)
    ensures var h := Dealt(row, widths, g, Spent(shares, rems, g), left);
      && Dealing(row, widths, shares, rems, h)
      && Total(g) <= Total(h) <= Total(g) + left
      && (Total(h) < Total(g) + left ==>
            forall i :: 0 <= i < |row| && Eligible(row, Plus(widths, shares), rems, i) ==> h[i] == shares[i] + 1)
    decreases left
  {
    hide Eligible;
    var now := Spent(shares, rems, g);
    var b := Best(row, Plus(widths, g), now, |row|);
    EligibleNow(row, widths, shares, rems, g);
    if left > 0 && b < |row| {
      var g' := g[b := g[b] + 1];
      DealNext(row, widths, shares, rems, g, b);
      TotalUpdate(g, b, g[b] + 1);
      assert Spent(shares, rems, g') == now[b := -1];
      DealtIs(row, widths, shares, rems, g', left - 1);
    }
  }

  /** Who may still get a cell: the children eligible at first that have had none. */
  lemma EligibleNow(row: Row, widths: seq<int>, shares: seq<int>, rems: seq<int>, g: seq<int>)
    requires Dealing(row, widths, shares, rems, g)
    ensures forall i :: 0 <= i < |row| ==>
      (Eligible(row, Plus(widths, g), Spent(shares, rems, g), i)
       <==> g[i] == shares[i] && Eligible(row, Plus(widths, shares), rems, i))
  {
  }

  lemma DealNext(row: Row, widths: seq<int>, shares: seq<int>, rems: seq<int>, g: seq<int>, b: nat)
    requires Dealing(row, widths, shares, rems, g)
    requires b < |row| && b == Best(row, Plus(widths, g), Spent(shares, rems, g), |row|)
    ensures g[b] == shares[b] && Dealing(row, widths, shares, rems, g[b := g[b] + 1])
  {
    EligibleNow(row, widths, shares, rems, g);
    hide Eligible;
  }

  // ---- quotas ----

  /** floor(spare * grow / total) for the active children. */
  function Floors(row: Row, widths: seq<int>, spare: nat, total: nat): (r: seq<int>)
    requires |row| == |widths| && total > 0
    ensures |r| == |row|
  {
    seq(|row|, i requires 0 <= i < |row| => spare * GrowOf(row[i], widths[i]) / total)
  }

  function Parts(row: Row, widths: seq<int>, spare: nat, total: nat): (r: seq<int>)
    requires |row| == |widths| && total > 0
    ensures |r| == |row|
  {
    seq(|row|, i requires 0 <= i < |row| => spare * GrowOf(row[i], widths[i]) % total)
  }

  /** The floors and the fractional parts together make up the spare width. */
  lemma QuotaSum(row: Row, widths: seq<int>, spare: nat)
    requires |row| == |widths| && Total(Grows(row, widths)) > 0
    ensures var total := Total(Grows(row, widths));
      total * Total(Floors(row, widths, spare, total)) + Total(Parts(row, widths, spare, total)) == spare * total
  {
    var total := Total(Grows(row, widths));
    var floors, parts, grows := Floors(row, widths, spare, total), Parts(row, widths, spare, total), Grows(row, widths);
    var scaled := seq(|row|, i requires 0 <= i < |row| => total * floors[i]);
    var quotas := seq(|row|, i requires 0 <= i < |row| => spare * grows[i]);
    TotalScale(floors, total, scaled);
    TotalScale(grows, spare, quotas);
    forall i | 0 <= i < |row| ensures quotas[i] == scaled[i] + parts[i] {
      Division(spare * grows[i], total);
    }
    TotalAdd(scaled, parts, quotas);
  }

  lemma Division(a: nat, b: nat)
    requires b > 0
    ensures a == b * (a / b) + a % b && 0 <= a % b < b && 0 <= a / b
  {
  }

  lemma SharesFit(row: Row, widths: seq<int>, spare: nat)
    requires |row| == |widths| && Total(Grows(row, widths)) > 0
    ensures var total := Total(Grows(row, widths));
      var shares := Shares(row, widths, spare, total);
      && 0 <= Total(shares) <= spare
      && forall i :: 0 <= i < |row| ==> 0 <= shares[i] <= Floors(row, widths, spare, total)[i]
  {
    var total := Total(Grows(row, widths));
    var shares, floors := Shares(row, widths, spare, total), Floors(row, widths, spare, total);
    forall i | 0 <= i < |row| ensures 0 <= shares[i] <= floors[i] {
      Division(spare * GrowOf(row[i], widths[i]), total);
    }
    TotalNonNegative(shares);
    TotalLe(shares, floors);
    QuotaSum(row, widths, spare);
    TotalNonNegative(Parts(row, widths, spare, total));
    Cancel(total, Total(floors), spare);
  }

  lemma Cancel(k: nat, a: int, b: int)
    requires k > 0 && k * a <= b * k
    ensures a <= b
  {
    assert k * (b - a) == b * k - k * a;
    Sign(k, b - a);
  }

  lemma Sign(k: nat, x: int)
    requires k > 0 && k * x >= 0
    ensures x >= 0
  {
  }

  /** What one pass hands out, for any maximums. */
  lemma GrantsAre(row: Row, widths: seq<int>, spare: nat)
    requires |row| == |widths| && Total(Grows(row, widths)) > 0
    ensures var total := Total(Grows(row, widths));
      var shares, rems := Shares(row, widths, spare, total), Rems(row, widths, spare, total);
      var g := Grants(row, widths, spare);
      && Dealing(row, widths, shares, rems, g)
      && Total(shares) <= Total(g) <= spare
      && (Total(g) < spare ==>
            forall i :: 0 <= i < |row| && Eligible(row, Plus(widths, shares), rems, i) ==> g[i] == shares[i] + 1)
  {
    var total := Total(Grows(row, widths));
    var shares, rems := Shares(row, widths, spare, total), Rems(row, widths, spare, total);
    SharesFit(row, widths, spare);
    assert Dealing(row, widths, shares, rems, shares);
    assert Spent(shares, rems, shares) == rems;
    DealtIs(row, widths, shares, rems, shares, spare - Total(shares));
  }

  /** Every pass makes progress, within each child's maximum. */
  lemma GrantsFit(row: Row, widths: seq<int>, spare: nat)
    requires |row| == |widths| && Total(Grows(row, widths)) > 0 && spare > 0
    ensures var g := Grants(row, widths, spare);
      && 0 < Total(g) <= spare
      && forall i :: 0 <= i < |row| ==>
           && 0 <= g[i] && (!Active(row[i], widths[i]) ==> g[i] == 0)
           && (row[i].maxWidth > 0 && widths[i] <= row[i].maxWidth ==> widths[i] + g[i] <= row[i].maxWidth)
  {
    GrantsAre(row, widths, spare);
    SharesFit(row, widths, spare);
    var total := Total(Grows(row, widths));
    var shares, rems := Shares(row, widths, spare, total), Rems(row, widths, spare, total);
    var g := Grants(row, widths, spare);
    TotalNonNegative(g);
    SomePositive(Grows(row, widths));
    var i :| 0 <= i < |row| && Grows(row, widths)[i] > 0;
    if Total(g) < spare { assert Eligible(row, Plus(widths, shares), rems, i) || shares[i] > 0; }
  }

  // ---- growing: all passes ----

  /** Passes until nothing is left or nobody can take it. */
  function Grown(row: Row, widths: seq<int>, spare: nat): (r: seq<int>)
    requires |row| == |widths|
    ensures |r| == |row|
    decreases spare
  {
    if spare == 0 || Total(Grows(row, widths)) <= 0 then widths
    else
      GrantsFit(row, widths, spare);
      var g := Grants(row, widths, spare);
      Grown(row, Plus(widths, g), spare - Total(g))
  }

  /**
   Growth respects the maximums, touches only children that grow, and leaves width over only when
   every growing child is at its maximum.
   */
  lemma {:induction false} GrownBounds(row: Row, widths: seq<int>, spare: nat)
    requires |row| == |widths|
    ensures var r := Grown(row, widths, spare);
      && (forall i :: 0 <= i < |row| ==>
            && widths[i] <= r[i] && (row[i].grow <= 0 ==> r[i] == widths[i])
            && (row[i].maxWidth > 0 && widths[i] <= row[i].maxWidth ==> r[i] <= row[i].maxWidth))
      && Total(r) <= Total(widths) + spare
      && (Total(r) < Total(widths) + spare ==> forall i :: 0 <= i < |row| && row[i].grow > 0 ==> Full(row[i], r[i]))
    decreases spare
  {
    hide *;
    GrownCases(row, widths, spare);
    if spare == 0 {
    } else if Total(Grows(row, widths)) <= 0 {
      NobodyGrows(row, widths);
    } else {
      GrantsFit(row, widths, spare);
      var g := Grants(row, widths, spare);
      PlusIs(widths, g);
      ActiveGrows(row, widths);
      GrownBounds(row, Plus(widths, g), spare - Total(g));
    }
  }

  /**
   With any maximums, a growing child below its maximum gets at least the whole part of its quota of the
   spare width, or reaches its maximum.
   */
  lemma QuotaGuaranteed(row: Row, widths: seq<int>, spare: nat, i: nat)
    requires |row| == |widths| && i < |row| && row[i].grow > 0
    requires row[i].maxWidth <= 0 || widths[i] < row[i].maxWidth
    ensures Total(Grows(row, widths)) > 0
    ensures var quota := spare * row[i].grow / Total(Grows(row, widths));
      var r := Grown(row, widths, spare);
      r[i] >= if row[i].maxWidth > 0 && widths[i] + quota > row[i].maxWidth then row[i].maxWidth
              else widths[i] + quota
  {
    SomeGrow(row, widths, i);
    ShareIs(row, widths, spare, Total(Grows(row, widths)), i);
    hide *;
    ShareGuaranteed(row, widths, spare, i);
  }

  lemma ShareGuaranteed(row: Row, widths: seq<int>, spare: nat, i: nat)
    requires |row| == |widths| && i < |row| && Total(Grows(row, widths)) > 0
    ensures Grown(row, widths, spare)[i] >= widths[i] + Shares(row, widths, spare, Total(Grows(row, widths)))[i]
  {
    hide *;
    var total := Total(Grows(row, widths));
    GrownCases(row, widths, spare);
    if spare == 0 {
      NoShare(row, widths, total, i);
    } else {
      GrantsAre(row, widths, spare);
      GrantsFit(row, widths, spare);
      var g := Grants(row, widths, spare);
      AtLeastShare(row, widths, Shares(row, widths, spare, total), Rems(row, widths, spare, total), g, i);
      PlusIs(widths, g);
      GrownBounds(row, Plus(widths, g), spare - Total(g));
    }
  }

  lemma NoShare(row: Row, widths: seq<int>, total: int, i: nat)
    requires |row| == |widths| && total > 0 && i < |row|
    ensures Shares(row, widths, 0, total)[i] <= 0
  {
    var nothing := 0 * row[i].grow;
    assert nothing == 0 && 0 / total == 0;
  }

  lemma SomeGrow(row: Row, widths: seq<int>, i: nat)
    requires |row| == |widths| && i < |row| && row[i].grow > 0
    requires row[i].maxWidth <= 0 || widths[i] < row[i].maxWidth
    ensures Total(Grows(row, widths)) > 0
  {
    TotalNonNegative(Grows(row, widths));
    if Total(Grows(row, widths)) <= 0 { NobodyGrows(row, widths); }
  }

  lemma ShareIs(row: Row, widths: seq<int>, spare: nat, total: nat, i: nat)
    requires |row| == |widths| && total > 0 && i < |row| && row[i].grow > 0
    requires row[i].maxWidth <= 0 || widths[i] < row[i].maxWidth
    ensures var quota := spare * row[i].grow / total;
      widths[i] + Shares(row, widths, spare, total)[i] ==
        if row[i].maxWidth > 0 && widths[i] + quota > row[i].maxWidth then row[i].maxWidth else widths[i] + quota
  {
  }

  lemma AtLeastShare(row: Row, widths: seq<int>, shares: seq<int>, rems: seq<int>, g: seq<int>, i: nat)
    requires Dealing(row, widths, shares, rems, g) && i < |row|
    ensures g[i] >= shares[i]
  {
    hide Eligible;
    hide Missed;
  }

  lemma GrownCases(row: Row, widths: seq<int>, spare: nat)
    requires |row| == |widths|
    ensures spare == 0 || Total(Grows(row, widths)) <= 0 ==> Grown(row, widths, spare) == widths
    ensures spare > 0 && Total(Grows(row, widths)) > 0 ==>
      var g := Grants(row, widths, spare);
      Total(g) <= spare && Grown(row, widths, spare) == Grown(row, Plus(widths, g), spare - Total(g))
  {
    if spare > 0 && Total(Grows(row, widths)) > 0 { GrantsFit(row, widths, spare); }
    hide Grants;
    hide Grows;
    hide Total;
    hide Plus;
  }

  lemma ActiveGrows(row: Row, widths: seq<int>)
    requires |row| == |widths|
    ensures forall i :: 0 <= i < |row| && row[i].grow <= 0 ==> !Active(row[i], widths[i])
  {
  }

  lemma NobodyGrows(row: Row, widths: seq<int>)
    requires |row| == |widths| && Total(Grows(row, widths)) <= 0
    ensures forall i :: 0 <= i < |row| && row[i].grow > 0 ==> Full(row[i], widths[i])
  {
    TotalNonNegative(Grows(row, widths));
    forall i | 0 <= i < |row| && row[i].grow > 0 ensures Full(row[i], widths[i]) {
      assert Grows(row, widths)[i] <= 0;
    }
  }

  // ---- largest remainder ----

  predicate Unlimited(row: Row) { forall i :: 0 <= i < |row| && row[i].grow > 0 ==> row[i].maxWidth <= 0 }

  /** Without maximums nothing but the remainder decides who is eligible, and shares are floors. */
  lemma UnlimitedPass(row: Row, widths: seq<int>, spare: nat)
    requires |row| == |widths| && Unlimited(row) && Total(Grows(row, widths)) > 0
    ensures var total := Total(Grows(row, widths));
      var shares, rems := Shares(row, widths, spare, total), Rems(row, widths, spare, total);
      && shares == Floors(row, widths, spare, total)
      && forall i :: 0 <= i < |row| ==>
           && (Eligible(row, Plus(widths, shares), rems, i) <==> row[i].grow > 0)
           && Parts(row, widths, spare, total)[i] == if row[i].grow > 0 then rems[i] else 0
  {
    var total := Total(Grows(row, widths));
    var shares, floors := Shares(row, widths, spare, total), Floors(row, widths, spare, total);
    forall i | 0 <= i < |row|
      ensures shares[i] == floors[i]
      ensures Eligible(row, Plus(widths, shares), Rems(row, widths, spare, total), i) <==> row[i].grow > 0
    {
      Division(spare * GrowOf(row[i], widths[i]), total);
      Division(0, total);
    }
  }

  /** Fractional parts are below `bound + 1` each, and only children with an extra cell have any. */
  lemma PartsBound(parts: seq<int>, shares: seq<int>, g: seq<int>, bound: nat, given: int)
    requires |parts| == |shares| == |g| && given == Total(g) - Total(shares)
    requires forall i :: 0 <= i < |g| ==> parts[i] <= if g[i] == shares[i] then 0 else bound
    requires forall i :: 0 <= i < |g| ==> g[i] == shares[i] || g[i] == shares[i] + 1
    ensures Total(parts) <= bound * given
  {
    var extra := seq(|g|, i requires 0 <= i < |g| => if g[i] == shares[i] then 0 else 1);
    TotalAdd(shares, extra, g);
    var most := seq(|g|, i requires 0 <= i < |g| => if g[i] == shares[i] then 0 else bound);
    TotalLe(parts, most);
    assert Total(extra) == given;
    ScaleFlags(extra, most, bound);
    hide Total;
  }

  lemma ScaleFlags(flags: seq<int>, s: seq<int>, k: int)
    requires |s| == |flags|
    requires forall i :: 0 <= i < |s| ==> (flags[i] == 0 && s[i] == 0) || (flags[i] == 1 && s[i] == k)
    ensures Total(s) == k * Total(flags)
  {
    forall i | 0 <= i < |s| ensures s[i] == k * flags[i] { if flags[i] == 0 { assert k * 0 == 0; } }
    TotalScale(flags, k, s);
  }

  lemma PartsRange(row: Row, widths: seq<int>, spare: nat, total: nat)
    requires |row| == |widths| && total > 0
    ensures forall i :: 0 <= i < |row| ==> 0 <= Parts(row, widths, spare, total)[i] <= total - 1
  {
    forall i | 0 <= i < |row| ensures 0 <= Parts(row, widths, spare, total)[i] <= total - 1 {
      Division(spare * GrowOf(row[i], widths[i]), total);
    }
  }

  /** If the cells given pay for all fractional parts, there were none. */
  lemma TooFew(total: nat, floors: int, parts: int, spare: int, given: int)
    requires total > 0 && total * floors + parts == spare * total && parts <= (total - 1) * given
    requires 0 <= given <= spare - floors
    ensures spare == floors
  {
    var left := spare - floors;
    assert total * left == spare * total - total * floors;
    Monotone(total - 1, given, left);
    assert (total - 1) * left == total * left - left;
  }

  lemma Monotone(k: nat, a: int, b: int)
    requires a <= b
    ensures k * a <= k * b
  {
    assert k * (b - a) >= 0;
    assert k * (b - a) == k * b - k * a;
  }

  /** One pass without maximums: all spare width goes out, and extra cells go to non-zero remainders. */
  lemma UnlimitedGrants(row: Row, widths: seq<int>, spare: nat)
    requires |row| == |widths| && Unlimited(row) && Total(Grows(row, widths)) > 0
    ensures var total := Total(Grows(row, widths));
      var floors, g := Floors(row, widths, spare, total), Grants(row, widths, spare);
      && Total(g) == spare
      && (forall i :: 0 <= i < |row| ==> g[i] == floors[i] || g[i] == floors[i] + 1)
      && forall i :: 0 <= i < |row| && g[i] != floors[i] ==> Parts(row, widths, spare, total)[i] > 0
  {
    var total := Total(Grows(row, widths));
    var floors, parts := Floors(row, widths, spare, total), Parts(row, widths, spare, total);
    var g := Grants(row, widths, spare);
    UnlimitedDeal(row, widths, spare);
    hide *;
    PartsRange(row, widths, spare, total);
    QuotaSum(row, widths, spare);
    TotalLe(floors, g);
    if Total(g) < spare {
      PartsBound(parts, floors, g, total - 1, Total(g) - Total(floors));
      TooFew(total, Total(floors), Total(parts), spare, Total(g) - Total(floors));
    }
    forall i | 0 <= i < |row| && g[i] != floors[i] ensures parts[i] > 0 {
      if parts[i] == 0 {
        PartsBound(parts, floors, g, total - 1, Total(g) - Total(floors));
        TooFew(total, Total(floors), Total(parts), spare, Total(g) - Total(floors));
      }
    }
  }

  /** `GrantsAre` in terms of quotas. */
  lemma UnlimitedDeal(row: Row, widths: seq<int>, spare: nat)
    requires |row| == |widths| && Unlimited(row) && Total(Grows(row, widths)) > 0
    ensures var total := Total(Grows(row, widths));
      var floors, parts := Floors(row, widths, spare, total), Parts(row, widths, spare, total);
      var g := Grants(row, widths, spare);
      && (forall i :: 0 <= i < |row| ==>
            0 <= floors[i] && (g[i] == floors[i] || (g[i] == floors[i] + 1 && row[i].grow > 0)))
      && (forall i :: 0 <= i < |row| && row[i].grow <= 0 ==> parts[i] == 0)
      && Total(g) <= spare
      && (Total(g) < spare ==> forall i :: 0 <= i < |row| && row[i].grow > 0 ==> g[i] == floors[i] + 1)
      && (forall i, j | 0 <= i < |row| && 0 <= j < |row| ::
            g[i] != floors[i] && row[j].grow > 0 && g[j] == floors[j] ==> Beats(parts, i, j))
  {
    hide *;
    GrantsAre(row, widths, spare);
    SharesFit(row, widths, spare);
    UnlimitedPass(row, widths, spare);
    var total := Total(Grows(row, widths));
    DealInTerms(row, widths, Floors(row, widths, spare, total), Rems(row, widths, spare, total),
                Parts(row, widths, spare, total), Grants(row, widths, spare));
  }

  lemma DealInTerms(row: Row, widths: seq<int>, floors: seq<int>, rems: seq<int>, parts: seq<int>, g: seq<int>)
    requires |parts| == |row| && Dealing(row, widths, floors, rems, g)
    requires forall i :: 0 <= i < |row| ==>
      && (Eligible(row, Plus(widths, floors), rems, i) <==> row[i].grow > 0)
      && parts[i] == if row[i].grow > 0 then rems[i] else 0
    ensures forall i :: 0 <= i < |row| ==> g[i] == floors[i] || (g[i] == floors[i] + 1 && row[i].grow > 0)
    ensures forall i, j | 0 <= i < |row| && 0 <= j < |row| ::
      g[i] != floors[i] && row[j].grow > 0 && g[j] == floors[j] ==> Beats(parts, i, j)
  {
    hide Eligible;
    hide Plus;
    forall i, j | 0 <= i < |row| && 0 <= j < |row| && g[i] != floors[i] && row[j].grow > 0 && g[j] == floors[j]
      ensures Beats(parts, i, j)
    {
      assert Missed(row, widths, floors, rems, g, j);
    }
  }

  /**
   Growth without maximums is largest-remainder apportionment: everything is handed out, each child
   gets the floor of its quota or one more, one more only with a non-zero remainder, and larger
   remainders, then lower indices, come first.
   */
  lemma LargestRemainder(row: Row, widths: seq<int>, spare: nat)
    requires |row| == |widths| && Unlimited(row) && Total(Grows(row, widths)) > 0
    ensures var total := Total(Grows(row, widths));
      var floors, parts := Floors(row, widths, spare, total), Parts(row, widths, spare, total);
      var r := Grown(row, widths, spare);
      && Total(r) == Total(widths) + spare
      && (forall i :: 0 <= i < |row| ==>
            || r[i] == widths[i] + floors[i]
            || (r[i] == widths[i] + floors[i] + 1 && parts[i] > 0))
      && (forall i, j | 0 <= i < |row| && 0 <= j < |row| && row[j].grow > 0 ::
            r[i] > widths[i] + floors[i] && r[j] == widths[j] + floors[j] ==> Beats(parts, i, j))
  {
    hide *;
    var total := Total(Grows(row, widths));
    var floors, parts := Floors(row, widths, spare, total), Parts(row, widths, spare, total);
    var g := Grants(row, widths, spare);
    UnlimitedDeal(row, widths, spare);
    UnlimitedGrants(row, widths, spare);
    PlusIs(widths, g);
    OnePass(row, widths, spare);
  }

  lemma PlusIs(a: seq<int>, b: seq<int>)
    requires |a| == |b|
    ensures Total(Plus(a, b)) == Total(a) + Total(b)
    ensures forall i :: 0 <= i < |a| ==> Plus(a, b)[i] == a[i] + b[i]
  {
    TotalAdd(a, b, Plus(a, b));
  }

  /** When a pass hands out everything, it is the only one. */
  lemma OnePass(row: Row, widths: seq<int>, spare: nat)
    requires |row| == |widths| && Total(Grows(row, widths)) > 0 && Total(Grants(row, widths, spare)) == spare
    requires forall i :: 0 <= i < |row| ==> Grants(row, widths, spare)[i] >= 0
    ensures Grown(row, widths, spare) == Plus(widths, Grants(row, widths, spare))
  {
    var g := Grants(row, widths, spare);
    if spare == 0 {
      TotalNonNegative(g);
      assert Plus(widths, g) == widths;
    }
    hide Grants;
  }

  // ---- the code ----

  /** Starting widths and minimums. */
  method Clamp(row: Row) returns (widths: seq<int>, mins: seq<int>)
    ensures widths == Starts(row) && mins == Mins(row)
  {
    widths, mins := [], [];
    for i := 0 to |row|
      invariant widths == Starts(row)[..i] && mins == Mins(row)[..i]
    {
      var c := row[i];
      var minW := c.minWidth;
      if minW < 1 { minW := 1; }
      mins := mins + [minW];
      var w := c.basis;
      if w < minW { w := minW; }
      if c.maxWidth > 0 && w > c.maxWidth { w := c.maxWidth; }
      if w < 1 { w := 1; }
      widths := widths + [w];
      assert Starts(row)[..i + 1] == Starts(row)[..i] + [Starts(row)[i]];
      assert Mins(row)[..i + 1] == Mins(row)[..i] + [Mins(row)[i]];
    }
  }

  lemma ShrunkStart(starts: seq<int>, mins: seq<int>)
    requires |starts| == |mins|
    ensures Shrunk(starts, mins, 0, 0) == starts
  {
  }

  lemma ShrunkRound(starts: seq<int>, mins: seq<int>, rounds: nat)
    requires |starts| == |mins|
    ensures Shrunk(starts, mins, rounds, |starts|) == Shrunk(starts, mins, rounds + 1, 0)
  {
  }

  lemma ShrunkCell(starts: seq<int>, mins: seq<int>, rounds: nat, i: nat)
    requires |starts| == |mins| && i < |starts|
    ensures var w := Shrunk(starts, mins, rounds, i);
      Shrunk(starts, mins, rounds, i + 1) == if w[i] > mins[i] then w[i := w[i] - 1] else w
  {
  }

  /** Round-robin shrinking ends at exactly the content width, in the closed form. */
  method Shrink(starts: seq<int>, mins: seq<int>, content: int)
    returns (widths: seq<int>, ghost rounds: nat, ghost extra: nat)
    requires |starts| == |mins| && Total(mins) <= content
    ensures extra <= |starts| && widths == Shrunk(starts, mins, rounds, extra)
    ensures Total(starts) <= content ==> widths == starts
    ensures Total(starts) > content ==> Total(widths) == content
  {
    hide Shrunk;
    widths, rounds, extra := starts, 0, 0;
    ShrunkStart(starts, mins);
    var sum := SumInts(widths);
    while sum > content
      invariant |widths| == |starts| && sum == Total(widths)
      invariant extra <= |starts| && widths == Shrunk(starts, mins, rounds, extra)
      invariant sum > content ==> extra == 0
      invariant if Total(starts) <= content then widths == starts else sum >= content
      decreases sum - content
    {
      var changed := false;
      ghost var before := sum;
      var i := 0;
      while i < |widths|
        invariant 0 <= i <= |widths| == |starts| && sum == Total(widths) && sum >= content
        invariant widths == Shrunk(starts, mins, rounds, i)
        invariant if changed then sum < before else sum == before
        invariant !changed ==> forall j :: 0 <= j < i ==> widths[j] <= mins[j]
      {
        if sum <= content { break; }
        ShrunkCell(starts, mins, rounds, i);
        if widths[i] > mins[i] {
          TotalUpdate(widths, i, widths[i] - 1);
          widths := widths[i := widths[i] - 1];
          sum := SumInts(widths);
          changed := true;
        }
        i := i + 1;
      }
      extra := i;
      if i == |widths| { ShrunkRound(starts, mins, rounds); rounds, extra := rounds + 1, 0; }
      if !changed {
        TotalLe(widths, mins);
        break;
      }
    }
  }

  method FindBest(row: Row, widths: seq<int>, grants: seq<int>, rems: seq<int>) returns (best: int)
    requires |row| == |widths| == |grants| == |rems|
    ensures best < |row|
    ensures Best(row, Plus(widths, grants), rems, |row|) == if best < 0 then |row| else best
  {
    best := -1;
    var bestRem := -1;
    for i := 0 to |row|
      invariant -1 <= best < i && bestRem >= -1
      invariant Best(row, Plus(widths, grants), rems, i) == if best < 0 then |row| else best
      invariant bestRem == if best < 0 then -1 else rems[best]
    {
      var c := row[i];
      if c.maxWidth > 0 && widths[i] + grants[i] >= c.maxWidth { continue; }
      if rems[i] > bestRem { best, bestRem := i, rems[i]; }
    }
  }

  /** One proportional pass: whole shares first, then the leftover cells by remainder. */
  method GrowPass(row: Row, widths: seq<int>, spare: nat, total: nat) returns (grants: seq<int>)
    requires |row| == |widths| && total == Total(Grows(row, widths)) > 0
    ensures grants == Grants(row, widths, spare)
  {
    grants := [];
    var rems := [];
    for i := 0 to |row|
      invariant grants == Shares(row, widths, spare, total)[..i] && rems == Rems(row, widths, spare, total)[..i]
    {
      var c := row[i];
      var share, rem := 0, -1;
      if c.grow > 0 && (c.maxWidth <= 0 || widths[i] < c.maxWidth) {
        var num := spare * c.grow;
        share, rem := num / total, num % total;
        if c.maxWidth > 0 && widths[i] + share > c.maxWidth { share := c.maxWidth - widths[i]; }
      }
      grants, rems := grants + [share], rems + [rem];
      assert Shares(row, widths, spare, total)[..i + 1]
          == Shares(row, widths, spare, total)[..i] + [Shares(row, widths, spare, total)[i]];
      assert Rems(row, widths, spare, total)[..i + 1]
          == Rems(row, widths, spare, total)[..i] + [Rems(row, widths, spare, total)[i]];
    }
    assert grants == Shares(row, widths, spare, total) && rems == Rems(row, widths, spare, total);
    var granted := SumInts(grants);
    SharesFit(row, widths, spare);
    grants := Deal(row, widths, grants, rems, spare - granted);
  }

  method Deal(row: Row, widths: seq<int>, shares: seq<int>, fractions: seq<int>, cells: nat) returns (grants: seq<int>)
    requires |row| == |widths| == |shares| == |fractions|
    ensures grants == Dealt(row, widths, shares, fractions, cells)
  {
    grants := shares;
    var rems, left := fractions, cells;
    while left > 0
      invariant |row| == |grants| == |rems| && 0 <= left
      invariant Dealt(row, widths, grants, rems, left) == Dealt(row, widths, shares, fractions, cells)
    {
      hide Best;
      var best := FindBest(row, widths, grants, rems);
      if best < 0 { break; }
      grants := grants[best := grants[best] + 1];
      rems := rems[best := -1];
      left := left - 1;
    }
  }

  method GrowTotal(row: Row, widths: seq<int>) returns (total: int)
    requires |row| == |widths|
    ensures total == Total(Grows(row, widths))
  {
    total := 0;
    for i := 0 to |row|
      invariant total == Total(Grows(row, widths)[..i])
    {
      TotalNext(Grows(row, widths), i);
      var c := row[i];
      if c.grow > 0 && (c.maxWidth <= 0 || widths[i] < c.maxWidth) { total := total + c.grow; }
    }
    TotalAll(Grows(row, widths));
  }

  method Grow(row: Row, starts: seq<int>, cells: nat) returns (widths: seq<int>)
    requires |row| == |starts|
    ensures widths == Grown(row, starts, cells)
  {
    hide *;
    widths := starts;
    var spare := cells;
    while spare > 0
      invariant |widths| == |row| && 0 <= spare
      invariant Grown(row, widths, spare) == Grown(row, starts, cells)
    {
      GrownCases(row, widths, spare);
      var total := GrowTotal(row, widths);
      if total <= 0 { return; }
      var grants := GrowPass(row, widths, spare, total);
      GrantsFit(row, widths, spare);
      var granted := SumInts(grants);
      if granted <= 0 { return; }
      widths := AddAll(widths, grants);
      spare := spare - granted;
    }
    GrownCases(row, widths, spare);
  }

  method AddAll(widths: seq<int>, grants: seq<int>) returns (r: seq<int>)
    requires |widths| == |grants|
    ensures r == Plus(widths, grants)
  {
    r := widths;
    for i := 0 to |grants|
      invariant |r| == |widths|
      invariant forall j :: 0 <= j < |r| ==> r[j] == if j < i then widths[j] + grants[j] else widths[j]
    {
      r := r[i := r[i] + grants[i]];
    }
  }

  /** The width left for the children. */
  function Content(available: int, gap: int, n: nat): nat {
    var content := available - GapExtent(if gap < 0 then 0 else gap, n);
    if content < 0 then 0 else content
  }

  /** Too wide a start was shrunk to the content width, a narrower one grown. */
  predicate Allocated(row: Row, content: nat, widths: seq<int>, rounds: nat, extra: nat) {
    && extra <= |row|
    && if Total(Starts(row)) > content
       then widths == Shrunk(Starts(row), Mins(row), rounds, extra) && Total(widths) == content
       else widths == Grown(row, Starts(row), content - Total(Starts(row)))
  }

  /**
   An allocation that fits never exceeds the available width, keeps minimums (unless a maximum
   forbids it) and maximums, and leaves width over only when every growing child is at its maximum.
   */
  lemma AllocationBounds(row: Row, available: int, gap: int, widths: seq<int>, rounds: nat, extra: nat)
    requires row != [] && Total(Mins(row)) + GapExtent(gap, |row|) <= available
    requires Allocated(row, Content(available, gap, |row|), widths, rounds, extra)
    ensures |widths| == |row| && Total(widths) + GapExtent(gap, |row|) <= available
    ensures forall i :: 0 <= i < |row| ==>
      && widths[i] >= 1
      && (row[i].maxWidth > 0 ==> widths[i] <= row[i].maxWidth)
      && (row[i].maxWidth <= 0 || row[i].maxWidth >= Min(row[i]) ==> widths[i] >= Min(row[i]))
    ensures Total(widths) + GapExtent(gap, |row|) < available ==>
      forall i :: 0 <= i < |row| && row[i].grow > 0 ==> Full(row[i], widths[i])
  {
    hide *;
    MinsPositive(row);
    ContentIs(available, gap, |row|);
    var content, starts := Content(available, gap, |row|), Starts(row);
    AllocatedIs(row, content, widths, rounds, extra);
    StartsBounds(row);
    if Total(starts) <= content {
      GrownBounds(row, starts, content - Total(starts));
    } else {
      ShrunkBounds(starts, Mins(row), rounds, extra);
    }
  }

  /** The gaps lie between the children, one less than there are; a negative gap counts as none. */
  lemma GapsBetween(gap: int, n: nat)
    requires n > 0
    ensures GapExtent(gap, n) == if gap < 0 then 0 else gap * (n - 1)
  {
    if n == 1 { assert gap * (n - 1) == 0; }
  }

  function Apart(a: int, b: int): nat { if a <= b then b - a else a - b }

  /** A width the child may have, when its maximum is not below its minimum. */
  predicate Allowed(c: FlexConstraint, w: int) { w >= 1 && w >= c.minWidth && (c.maxWidth > 0 ==> w <= c.maxWidth) }

  /** `w` is the allowed width next to the basis; a maximum below the minimum decides alone. */
  ghost predicate Held(c: FlexConstraint, w: int) {
    if c.maxWidth > 0 && (c.maxWidth < c.minWidth) then w == c.maxWidth
    else Allowed(c, w) && forall v :: Allowed(c, v) ==> Apart(w, c.basis) <= Apart(v, c.basis)
  }

  lemma HeldIsStart(c: FlexConstraint, w: int)
    requires Held(c, w)
    ensures w == Start(c)
  {
    if !(c.maxWidth > 0 && c.maxWidth < c.minWidth) { assert Allowed(c, Start(c)); }
  }

  /**
   The bases, held between minimum and maximum, are where a row starts: if they fit, a child that does
   not grow gets its own and the others at least theirs; if they do not, the row is filled exactly, and
   no child loses more than one cell more than a child that is still above its minimum.
   */
  lemma BasesHeld(row: Row, available: int, gap: int, widths: seq<int>, rounds: nat, extra: nat, bases: seq<int>)
    requires row != [] && Total(Mins(row)) + GapExtent(gap, |row|) <= available
    requires Allocated(row, Content(available, gap, |row|), widths, rounds, extra)
    requires |bases| == |row| && forall i :: 0 <= i < |row| ==> Held(row[i], bases[i])
    ensures |widths| == |row|
    ensures Total(bases) + GapExtent(gap, |row|) <= available ==>
      forall i :: 0 <= i < |row| ==> widths[i] >= bases[i] && (row[i].grow <= 0 ==> widths[i] == bases[i])
    ensures Total(bases) + GapExtent(gap, |row|) > available ==>
      && Total(widths) + GapExtent(gap, |row|) == available
      && (forall i :: 0 <= i < |row| ==> widths[i] <= bases[i])
      && forall i, j | 0 <= i < |row| && 0 <= j < |row| ::
           widths[i] > Min(row[i]) ==> bases[j] - widths[j] <= bases[i] - widths[i] + 1
  {
    StartsAre(row, bases);
    hide *;
    MinsPositive(row);
    ContentIs(available, gap, |row|);
    var content := Content(available, gap, |row|);
    AllocatedIs(row, content, widths, rounds, extra);
    StartsBounds(row);
    if Total(bases) <= content {
      GrownBounds(row, bases, content - Total(bases));
    } else {
      ShrunkBounds(bases, Mins(row), rounds, extra);
      ShrunkEvenly(bases, Mins(row), rounds, extra);
    }
  }

  lemma StartsAre(row: Row, bases: seq<int>)
    requires |bases| == |row| && forall i :: 0 <= i < |row| ==> Held(row[i], bases[i])
    ensures bases == Starts(row)
  {
    forall i | 0 <= i < |row| ensures bases[i] == Starts(row)[i] { HeldIsStart(row[i], bases[i]); }
    hide Held;
  }

  lemma ShrunkEvenly(starts: seq<int>, mins: seq<int>, rounds: nat, extra: nat)
    requires |starts| == |mins|
    ensures var r := Shrunk(starts, mins, rounds, extra);
      |r| == |starts| && forall i, j | 0 <= i < |r| && 0 <= j < |r| ::
        r[i] > mins[i] ==> starts[j] - r[j] <= starts[i] - r[i] + 1
  {
  }

  lemma StartsBounds(row: Row)
    ensures forall i :: 0 <= i < |row| ==>
      && Mins(row)[i] == Min(row[i]) >= 1 && Starts(row)[i] >= 1
      && (row[i].maxWidth > 0 ==> Starts(row)[i] <= row[i].maxWidth)
      && (row[i].maxWidth <= 0 || row[i].maxWidth >= Min(row[i]) ==> Starts(row)[i] >= Min(row[i]))
  {
  }

  /** Shrinking takes nothing from a child at or below its minimum, and stops there. */
  lemma ShrunkBounds(starts: seq<int>, mins: seq<int>, rounds: nat, extra: nat)
    requires |starts| == |mins|
    ensures var r := Shrunk(starts, mins, rounds, extra);
      |r| == |starts| && forall i :: 0 <= i < |r| ==>
        r[i] <= starts[i] && (r[i] >= mins[i] || r[i] == starts[i])
  {
  }

  /**
   The row fits exactly when minimums and gaps do. Then oversized bases are shrunk in the closed
   form, or spare width is grown into.
   */
  method AllocateRow(available: int, gap: int, row: Row)
    returns (widths: seq<int>, fits: bool, ghost rounds: nat, ghost extra: nat)
    ensures fits <==> row == [] || Total(Mins(row)) + GapExtent(gap, |row|) <= available
    ensures !fits ==> widths == Mins(row)
    ensures fits ==> Allocated(row, Content(available, gap, |row|), widths, rounds, extra)
  {
    hide *;
    ContentIs(available, gap, |row|);
    rounds, extra := 0, 0;
    if |row| == 0 {
      EmptyRow(Content(available, gap, |row|));
      return [], true, rounds, extra;
    }
    var content := available - GapExtent(if gap < 0 then 0 else gap, |row|);
    if content < 0 { content := 0; }
    var starts, mins := Clamp(row);
    var least := SumInts(mins);
    MinsPositive(row);
    if least > content { return mins, false, rounds, extra; }
    widths, rounds, extra := Shrink(starts, mins, content);
    var used := SumInts(widths);
    var spare := content - used;
    fits := true;
    if spare > 0 { widths := Grow(row, widths, spare); }
    GrownCases(row, starts, 0);
    AllocatedIs(row, content, widths, rounds, extra);
  }

  lemma EmptyRow(content: nat)
    ensures Allocated([], content, [], 0, 0)
  {
    GrownBounds([], [], content);
  }

  lemma ContentIs(available: int, gap: int, n: nat)
    ensures GapExtent(if gap < 0 then 0 else gap, n) == GapExtent(gap, n)
    ensures Content(available, gap, n) == if available < GapExtent(gap, n) then 0 else available - GapExtent(gap, n)
  {
  }

  lemma AllocatedIs(row: Row, content: nat, widths: seq<int>, rounds: nat, extra: nat)
    ensures Allocated(row, content, widths, rounds, extra) <==>
      && extra <= |row|
      && if Total(Starts(row)) > content
         then widths == Shrunk(Starts(row), Mins(row), rounds, extra) && Total(widths) == content
         else widths == Grown(row, Starts(row), content - Total(Starts(row)))
  {
    hide Grown;
    hide Shrunk;
    hide Starts;
    hide Mins;
    hide Total;
  }

  lemma MinsPositive(row: Row)
    requires row != []
    ensures Total(Mins(row)) > 0
  {
    TotalNonNegative(Mins(row));
    assert Mins(row)[0] >= 1;
  }
}

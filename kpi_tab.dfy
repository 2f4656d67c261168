/**
 * The KPI tab: five colour bands of a progress ratio, the clamped percentage `pct`, the effective values
 * of monthly KPIs (the sums of their weekly children when they have any), the long-term-goal roll-up
 * that adds weighted monthly values into one checkpoint per month, and the dialog's validation.
 */
module KpiTab {
  import opened Wrappers
  import opened Text
  import opened KpiPeriods
  import opened Seqs

  // ---- Colour bands ----

  datatype Band = Red | Orange | Yellow | Green | DeepGreen

  function Rank(b: Band): nat {
    match b
    case Red => 0
    case Orange => 1
    case Yellow => 2
    case Green => 3
    case DeepGreen => 4
  }

  /** The progress of a card: `current / (target || 1)`, so a target of 0 divides by 1. */
  function Progress(current: real, target: real): real {
    current / (if target == 0.0 then 1.0 else target)
  }

  /** The band `progressBarClass` and `textColor` both pick: from 1.0, 0.8, 0.6 and 0.25 on. */
  function BandOf(p: real): (b: Band)
    ensures b == DeepGreen <==> p >= 1.0
    ensures b == Green <==> 0.8 <= p < 1.0
    ensures b == Yellow <==> 0.6 <= p < 0.8
    ensures b == Orange <==> 0.25 <= p < 0.6
    ensures b == Red <==> p < 0.25
  {
    if p >= 1.0 then DeepGreen
    else if p >= 0.8 then Green
    else if p >= 0.6 then Yellow
    else if p >= 0.25 then Orange
    else Red
  }

  function BarClass(p: real): string {
    match BandOf(p)
    case DeepGreen => "[&>div]:bg-green-700"
    case Green => "[&>div]:bg-green-500"
    case Yellow => "[&>div]:bg-yellow-400"
    case Orange => "[&>div]:bg-orange-400"
    case Red => "[&>div]:bg-red-500"
  }

  function TextColor(p: real): string {
    match BandOf(p)
    case DeepGreen => "text-green-700"
    case Green => "text-green-600"
    case Yellow => "text-yellow-600"
    case Orange => "text-orange-600"
    case Red => "text-red-600"
  }

  /** A higher ratio never gets a lower band. */
  lemma BandMonotone(p: real, q: real)
    requires p <= q
    ensures Rank(BandOf(p)) <= Rank(BandOf(q))
  {
  }

  /** The bar and the figure change colour together: each class names its band. */
  lemma ClassesAgree(p: real, q: real)
    ensures BarClass(p) == BarClass(q) <==> BandOf(p) == BandOf(q)
    ensures TextColor(p) == TextColor(q) <==> BandOf(p) == BandOf(q)
  {
  }

  /** A target of 0 reads as 1, so the progress is the current value itself. */
  lemma ZeroTargetReadsAsOne(current: real)
    ensures Progress(current, 0.0) == current
  {
  }

  // ---- Percentages ----

  /** `pct(num, den)`: `100 * num / (den || 1)` clamped to [0, 100]. */
  function Pct(num: real, den: real): (r: real)
    ensures 0.0 <= r <= 100.0
    ensures var q := 100.0 * Progress(num, den); 0.0 <= q <= 100.0 ==> r == q
    ensures 100.0 * Progress(num, den) > 100.0 ==> r == 100.0
    ensures 100.0 * Progress(num, den) < 0.0 ==> r == 0.0
  {
    var q := Progress(num, den) * 100.0;
    if q > 100.0 then 100.0 else if q < 0.0 then 0.0 else q
  }

  /** A larger numerator over the same positive denominator never shows a smaller percentage. */
  lemma PctMonotone(a: real, b: real, den: real)
    requires a <= b && den > 0.0
    ensures Pct(a, den) <= Pct(b, den)
  {
    assert a / den <= b / den;
  }

  // ---- Effective monthly values ----

  /**
   * A KPI of the tab; `parentId == None` is a monthly KPI, otherwise a weekly KPI under that parent.
   * Ids are integers, so `String(id)` and `Number(id)` keys agree.
   */
  datatype Kpi = Kpi(id: int, title: string, current: real, target: real, unit: string,
                     parentId: Option<int>, period: Option<string>)

  datatype Agg = Agg(current: real, target: real)

  /** Whether some KPI of the list is a child of `parent`. */
  predicate HasChild(kpis: seq<Kpi>, parent: int)
    decreases |kpis|
  {
    kpis != [] && (kpis[|kpis| - 1].parentId == Some(parent) || HasChild(kpis[..|kpis| - 1], parent))
  }

  /** The sums of current and target over the children of `parent`. */
  function ChildSums(kpis: seq<Kpi>, parent: int): Agg
    decreases |kpis|
  {
    if kpis == [] then Agg(0.0, 0.0)
    else
      var k, prev := kpis[|kpis| - 1], ChildSums(kpis[..|kpis| - 1], parent);
      if k.parentId == Some(parent) then Agg(prev.current + k.current, prev.target + k.target) else prev
  }

  /** `agg` holds an entry for exactly the parents with children, each the sums over its children. */
  ghost predicate AggregatesOf(agg: map<int, Agg>, kpis: seq<Kpi>) {
    (forall p :: p in agg <==> HasChild(kpis, p))
    && (forall p :: p in agg ==> agg[p] == ChildSums(kpis, p))
  }

  /** The entry `weeklyAggByParent` sets for `k` on top of `agg`. */
  function AddChild(agg: map<int, Agg>, k: Kpi): map<int, Agg> {
    match k.parentId
    case None => agg
    case Some(p) =>
      var prev := if p in agg then agg[p] else Agg(0.0, 0.0);
      agg[p := Agg(prev.current + k.current, prev.target + k.target)]
  }

  lemma AddChildStep(agg: map<int, Agg>, kpis: seq<Kpi>, k: Kpi)
    requires AggregatesOf(agg, kpis)
    ensures AggregatesOf(AddChild(agg, k), kpis + [k])
  {
    var ks := kpis + [k];
    assert ks[..|ks| - 1] == kpis;
    forall p | p !in agg
      ensures ChildSums(kpis, p) == Agg(0.0, 0.0)
    {
      NoChildNoSums(kpis, p);
    }
  }

  lemma {:induction false} NoChildNoSums(kpis: seq<Kpi>, p: int)
    requires !HasChild(kpis, p)
    ensures ChildSums(kpis, p) == Agg(0.0, 0.0)
    decreases |kpis|
  {
    if kpis != [] {
      NoChildNoSums(kpis[..|kpis| - 1], p);
    }
  }

  /** `weeklyAggByParent`: per parent id, the sums of current and target over its weekly children. */
  method WeeklyAggByParent(kpis: seq<Kpi>) returns (agg: map<int, Agg>)
    ensures AggregatesOf(agg, kpis)
  {
    agg := map[];
    var i := 0;
    while i < |kpis|
      invariant 0 <= i <= |kpis|
      invariant AggregatesOf(agg, kpis[..i])
    {
      AddChildStep(agg, kpis[..i], kpis[i]);
      TakeOneMore(kpis, i);
      var k := kpis[i];
      if k.parentId.Some? {
        var key := k.parentId.value;
        var prev := if key in agg then agg[key] else Agg(0.0, 0.0);
        agg := agg[key := Agg(prev.current + k.current, prev.target + k.target)];
      }
      i := i + 1;
    }
    assert kpis[..|kpis|] == kpis;
  }

  /** What `monthlyEffById` records for a monthly KPI: its children's sums if it has children. */
  datatype Eff = Eff(current: real, target: real, unit: string, period: Option<string>)

  function EffOf(m: Kpi, agg: map<int, Agg>): Eff {
    if m.id in agg then Eff(agg[m.id].current, agg[m.id].target, m.unit, m.period)
    else Eff(m.current, m.target, m.unit, m.period)
  }

  /** The last monthly KPI with the id: a later `set` on the same key replaces an earlier one. */
  function LastMonthly(kpis: seq<Kpi>, id: int): (r: Option<Kpi>)
    ensures r.Some? ==> r.value.parentId.None? && r.value.id == id && r.value in kpis
    decreases |kpis|
  {
    if kpis == [] then None
    else
      var k := kpis[|kpis| - 1];
      if k.parentId.None? && k.id == id then Some(k) else LastMonthly(kpis[..|kpis| - 1], id)
  }

  /** `eff` holds an entry for exactly the ids of monthly KPIs, each from the last one with that id. */
  ghost predicate EffectiveOf(eff: map<int, Eff>, kpis: seq<Kpi>, agg: map<int, Agg>) {
    (forall id :: id in eff <==> LastMonthly(kpis, id).Some?)
    && (forall id :: id in eff ==> eff[id] == EffOf(LastMonthly(kpis, id).value, agg))
  }

  lemma AddMonthlyStep(eff: map<int, Eff>, kpis: seq<Kpi>, agg: map<int, Agg>, k: Kpi)
    requires EffectiveOf(eff, kpis, agg)
    ensures EffectiveOf(if k.parentId.None? then eff[k.id := EffOf(k, agg)] else eff, kpis + [k], agg)
  {
    var ks := kpis + [k];
    assert ks[..|ks| - 1] == kpis;
  }

  /** `monthlyEffById`: per monthly KPI id, its effective current, target, unit and period. */
  method MonthlyEffById(kpis: seq<Kpi>, agg: map<int, Agg>) returns (eff: map<int, Eff>)
    ensures EffectiveOf(eff, kpis, agg)
  {
    eff := map[];
    var i := 0;
    while i < |kpis|
      invariant 0 <= i <= |kpis|
      invariant EffectiveOf(eff, kpis[..i], agg)
    {
      AddMonthlyStep(eff, kpis[..i], agg, kpis[i]);
      TakeOneMore(kpis, i);
      var m := kpis[i];
      if m.parentId.None? {
        eff := eff[m.id := EffOf(m, agg)];
      }
      i := i + 1;
    }
    assert kpis[..|kpis|] == kpis;
  }

  /**
   * With the aggregates of the same list, a monthly KPI's effective current and target are its
   * children's sums when it has children, and its own values otherwise.
   */
  lemma EffectiveValues(kpis: seq<Kpi>, agg: map<int, Agg>, eff: map<int, Eff>, id: int)
    requires AggregatesOf(agg, kpis) && EffectiveOf(eff, kpis, agg)
    requires id in eff
    ensures var m := LastMonthly(kpis, id).value;
            if HasChild(kpis, id) then eff[id].current == ChildSums(kpis, id).current && eff[id].target == ChildSums(kpis, id).target
            else eff[id].current == m.current && eff[id].target == m.target
    ensures eff[id].unit == LastMonthly(kpis, id).value.unit
  {
  }

  /** A new weekly child adds its current and target to its parent's sums and to no other's. */
  lemma NewChildAdds(kpis: seq<Kpi>, child: Kpi, p: int)
    requires child.parentId.Some?
    ensures ChildSums(kpis + [child], p)
            == if child.parentId == Some(p)
               then Agg(ChildSums(kpis, p).current + child.current, ChildSums(kpis, p).target + child.target)
               else ChildSums(kpis, p)
  {
    var ks := kpis + [child];
    assert ks[..|ks| - 1] == kpis;
  }

  // ---- Long-term goals ----

  datatype Mode = CurrentOnly | TargetOnly | Both

  datatype Goal = Goal(id: int, title: string, unit: string, targetTotal: real, startMonth: string, endMonth: string)

  /**
   * A fuel adds a weighted monthly KPI into one month of a goal. `weight` is `None` when `Number(weight)`
   * is not finite, and the weight then counts as 1.
   */
  datatype Fuel = Fuel(goalId: int, period: string, monthlyKpiId: int, weight: Option<real>, mode: Mode)

  datatype Checkpoint = Checkpoint(period: string, current: real, target: real)

  datatype Row = Row(goal: Goal, checkpoints: seq<Checkpoint>, totalCurrent: real, totalTarget: real)

  /** The fuels of one goal, in order. */
  function ForGoal(fuels: seq<Fuel>, goalId: int): (r: seq<Fuel>)
    ensures |r| <= |fuels|
    decreases |fuels|
  {
    if fuels == [] then []
    else
      var f, init := fuels[|fuels| - 1], ForGoal(fuels[..|fuels| - 1], goalId);
      if f.goalId == goalId then init + [f] else init
  }

  /** `ForGoal` keeps exactly the fuels of the goal. */
  lemma {:induction false} ForGoalMembers(fuels: seq<Fuel>, goalId: int)
    ensures forall f :: f in ForGoal(fuels, goalId) <==> f in fuels && f.goalId == goalId
    decreases |fuels|
  {
    if fuels != [] {
      var init := fuels[..|fuels| - 1];
      ForGoalMembers(init, goalId);
      assert fuels == init + [fuels[|fuels| - 1]];
    }
  }

  /** What one fuel adds: `w * current` unless the mode is target-only, `w * target` unless current-only. */
  function Contribution(f: Fuel, e: Eff): (a: Agg)
    ensures f.mode == TargetOnly ==> a.current == 0.0
    ensures f.mode == CurrentOnly ==> a.target == 0.0
    ensures f.mode != TargetOnly ==> a.current == f.weight.GetOr(1.0) * e.current
    ensures f.mode != CurrentOnly ==> a.target == f.weight.GetOr(1.0) * e.target
  {
    var w := f.weight.GetOr(1.0);
    Agg(if f.mode == TargetOnly then 0.0 else w * e.current, if f.mode == CurrentOnly then 0.0 else w * e.target)
  }

  /** Whether the fuel counts towards the month labelled `p`: its period normalises to `p` and its KPI is known. */
  predicate Counts(f: Fuel, eff: map<int, Eff>, p: string) {
    NormalizePeriod(f.period) == p && f.monthlyKpiId in eff
  }

  /** The sums the fuels add into the month labelled `p`. */
  function MonthTotal(fuels: seq<Fuel>, eff: map<int, Eff>, p: string): Agg
    decreases |fuels|
  {
    if fuels == [] then Agg(0.0, 0.0)
    else
      var f, prev := fuels[|fuels| - 1], MonthTotal(fuels[..|fuels| - 1], eff, p);
      if Counts(f, eff, p) then
        var a := Contribution(f, eff[f.monthlyKpiId]);
        Agg(prev.current + a.current, prev.target + a.target)
      else prev
  }

  function SumCurrent(cps: seq<Checkpoint>): real
    decreases |cps|
  {
    if cps == [] then 0.0 else SumCurrent(cps[..|cps| - 1]) + cps[|cps| - 1].current
  }

  function AtLeastOne(x: real): real {
    if x > 1.0 then x else 1.0
  }

  /**
   * The row of a goal: one checkpoint per month of its range, each the sums the goal's fuels add into
   * that month, the total current over all checkpoints and a total target of at least 1.
   */
  ghost predicate IsRowOf(row: Row, goal: Goal, fuels: seq<Fuel>, eff: map<int, Eff>) {
    IsRowOver(row, goal, fuels, eff, MonthRange(NormalizePeriod(goal.startMonth), NormalizePeriod(goal.endMonth)))
  }

  /** `row` is the goal's row over the months `range`: one checkpoint per month with its totals, then the row totals. */
  ghost predicate IsRowOver(row: Row, goal: Goal, fuels: seq<Fuel>, eff: map<int, Eff>, range: seq<string>) {
    && row.goal == goal
    && |row.checkpoints| == |range|
    && (forall j :: 0 <= j < |range| ==>
          row.checkpoints[j] == Checkpoint(range[j], MonthTotal(ForGoal(fuels, goal.id), eff, range[j]).current,
                                           MonthTotal(ForGoal(fuels, goal.id), eff, range[j]).target))
    && row.totalCurrent == SumCurrent(row.checkpoints)
    && row.totalTarget == AtLeastOne(goal.targetTotal)
  }

  /** `monthAgg` holds an entry for exactly the months of the range, each what the fuels add into it. */
  ghost predicate MonthAggOf(monthAgg: map<string, Agg>, range: seq<string>, fuels: seq<Fuel>, eff: map<int, Eff>) {
    (forall p :: p in monthAgg <==> p in range)
    && (forall p :: p in monthAgg ==> monthAgg[p] == MonthTotal(fuels, eff, p))
  }

  /** The update of `monthAgg` for one fuel: skipped outside the range or for an unknown KPI. */
  function AddFuel(monthAgg: map<string, Agg>, f: Fuel, eff: map<int, Eff>): map<string, Agg> {
    var p := NormalizePeriod(f.period);
    if p in monthAgg && f.monthlyKpiId in eff then
      var a := Contribution(f, eff[f.monthlyKpiId]);
      monthAgg[p := Agg(monthAgg[p].current + a.current, monthAgg[p].target + a.target)]
    else monthAgg
  }

  lemma AddFuelStep(monthAgg: map<string, Agg>, range: seq<string>, fuels: seq<Fuel>, f: Fuel, eff: map<int, Eff>)
    requires MonthAggOf(monthAgg, range, fuels, eff)
    ensures MonthAggOf(AddFuel(monthAgg, f, eff), range, fuels + [f], eff)
  {
    var fs := fuels + [f];
    assert fs[..|fs| - 1] == fuels;
  }

  lemma InitialMonthAgg(range: seq<string>, eff: map<int, Eff>)
    ensures MonthAggOf(map p | p in range :: Agg(0.0, 0.0), range, [], eff)
  {
  }

  /** The loop of `ltRows` over a goal's fuels: `monthAgg` starts at 0 for every month of the range. */
  method AddFuels(range: seq<string>, forGoal: seq<Fuel>, eff: map<int, Eff>) returns (monthAgg: map<string, Agg>)
    ensures MonthAggOf(monthAgg, range, forGoal, eff)
  {
    monthAgg := map p | p in range :: Agg(0.0, 0.0);
    InitialMonthAgg(range, eff);
    assert forGoal[..0] == [];
    var i := 0;
    while i < |forGoal|
      invariant 0 <= i <= |forGoal|
      invariant MonthAggOf(monthAgg, range, forGoal[..i], eff)
    {
      var f := forGoal[i];
      AddFuelStep(monthAgg, range, forGoal[..i], f, eff);
      TakeOneMore(forGoal, i);
      var p := NormalizePeriod(f.period);
      if p in monthAgg && f.monthlyKpiId in eff {
        var a := Contribution(f, eff[f.monthlyKpiId]);
        monthAgg := monthAgg[p := Agg(monthAgg[p].current + a.current, monthAgg[p].target + a.target)];
      }
      i := i + 1;
    }
    assert forGoal[..|forGoal|] == forGoal;
  }

  /** One element of `ltRows`. */
  method LtRow(goal: Goal, fuels: seq<Fuel>, eff: map<int, Eff>) returns (row: Row)
    ensures IsRowOf(row, goal, fuels, eff)
  {
    var range := MonthsBetween(NormalizePeriod(goal.startMonth), NormalizePeriod(goal.endMonth));
    row := RowOver(goal, fuels, eff, range);
  }

  /** The row of a goal over the months `range`: one checkpoint per month, then the totals. */
  method RowOver(goal: Goal, fuels: seq<Fuel>, eff: map<int, Eff>, range: seq<string>) returns (row: Row)
    ensures IsRowOver(row, goal, fuels, eff, range)
  {
    var forGoal := ForGoal(fuels, goal.id);
    var monthAgg := AddFuels(range, forGoal, eff);
    var checkpoints := seq(|range|, j requires 0 <= j < |range| =>
                             Checkpoint(range[j], monthAgg[range[j]].current, monthAgg[range[j]].target));
    CheckpointsOf(monthAgg, range, forGoal, eff, checkpoints);
    row := Row(goal, checkpoints, SumCurrent(checkpoints), AtLeastOne(goal.targetTotal));
  }

  lemma CheckpointsOf(monthAgg: map<string, Agg>, range: seq<string>, fuels: seq<Fuel>, eff: map<int, Eff>,
                      checkpoints: seq<Checkpoint>)
    requires MonthAggOf(monthAgg, range, fuels, eff)
    requires |checkpoints| == |range|
    requires forall j :: 0 <= j < |range| ==>
               checkpoints[j] == Checkpoint(range[j], monthAgg[range[j]].current, monthAgg[range[j]].target)
    ensures forall j :: 0 <= j < |range| ==>
              checkpoints[j] == Checkpoint(range[j], MonthTotal(fuels, eff, range[j]).current,
                                           MonthTotal(fuels, eff, range[j]).target)
  {
  }

  lemma AppendRow(rows: seq<Row>, row: Row, goals: seq<Goal>, fuels: seq<Fuel>, eff: map<int, Eff>)
    requires |rows| < |goals|
    requires forall j :: 0 <= j < |rows| ==> IsRowOf(rows[j], goals[j], fuels, eff)
    requires IsRowOf(row, goals[|rows|], fuels, eff)
    ensures forall j :: 0 <= j < |rows| + 1 ==> IsRowOf((rows + [row])[j], goals[j], fuels, eff)
  {
    forall j | 0 <= j < |rows| + 1
      ensures IsRowOf((rows + [row])[j], goals[j], fuels, eff)
    {
      if j < |rows| {
        assert (rows + [row])[j] == rows[j];
      }
    }
  }

  /** `ltRows`: one row per goal, in order. */
  method LtRows(goals: seq<Goal>, fuels: seq<Fuel>, eff: map<int, Eff>) returns (rows: seq<Row>)
    ensures |rows| == |goals|
    ensures forall i :: 0 <= i < |goals| ==> IsRowOf(rows[i], goals[i], fuels, eff)
  {
    rows := [];
    var i := 0;
    while i < |goals|
      invariant 0 <= i <= |goals| && |rows| == i
      invariant forall j :: 0 <= j < i ==> IsRowOf(rows[j], goals[j], fuels, eff)
    {
      var row := LtRow(goals[i], fuels, eff);
      AppendRow(rows, row, goals, fuels, eff);
      rows := rows + [row];
      i := i + 1;
    }
  }

  /** A fuel outside the month, or for a KPI that is not a known monthly KPI, adds nothing to it. */
  lemma IgnoredFuel(fuels: seq<Fuel>, f: Fuel, eff: map<int, Eff>, p: string)
    requires NormalizePeriod(f.period) != p || f.monthlyKpiId !in eff
    ensures MonthTotal(fuels + [f], eff, p) == MonthTotal(fuels, eff, p)
  {
    var fs := fuels + [f];
    assert fs[..|fs| - 1] == fuels;
  }

  lemma MonthTotalSnoc(fuels: seq<Fuel>, f: Fuel, eff: map<int, Eff>, p: string)
    ensures MonthTotal(fuels + [f], eff, p)
            == if Counts(f, eff, p)
               then Agg(MonthTotal(fuels, eff, p).current + Contribution(f, eff[f.monthlyKpiId]).current,
                        MonthTotal(fuels, eff, p).target + Contribution(f, eff[f.monthlyKpiId]).target)
               else MonthTotal(fuels, eff, p)
  {
    var fs := fuels + [f];
    assert fs[..|fs| - 1] == fuels;
  }

  /** Fuels add up independently: the month's sums over two lists of fuels are the sums of each. */
  lemma {:induction false} MonthTotalAppend(a: seq<Fuel>, b: seq<Fuel>, eff: map<int, Eff>, p: string)
    ensures MonthTotal(a + b, eff, p).current == MonthTotal(a, eff, p).current + MonthTotal(b, eff, p).current
    ensures MonthTotal(a + b, eff, p).target == MonthTotal(a, eff, p).target + MonthTotal(b, eff, p).target
    decreases |b|
  {
    if b == [] {
      assert a + b == a;
    } else {
      var init, f := b[..|b| - 1], b[|b| - 1];
      assert b == init + [f];
      assert a + b == (a + init) + [f];
      MonthTotalAppend(a, init, eff, p);
      MonthTotalSnoc(a + init, f, eff, p);
      MonthTotalSnoc(init, f, eff, p);
    }
  }

  /** Target-only fuels add nothing to a month's current. */
  lemma {:induction false} TargetOnlyAddsNoCurrent(fuels: seq<Fuel>, eff: map<int, Eff>, p: string)
    requires forall f :: f in fuels ==> f.mode == TargetOnly
    ensures MonthTotal(fuels, eff, p).current == 0.0
    decreases |fuels|
  {
    if fuels != [] {
      var init := fuels[..|fuels| - 1];
      assert forall f :: f in init ==> f in fuels;
      TargetOnlyAddsNoCurrent(init, eff, p);
    }
  }

  /** Current-only fuels add nothing to a month's target. */
  lemma {:induction false} CurrentOnlyAddsNoTarget(fuels: seq<Fuel>, eff: map<int, Eff>, p: string)
    requires forall f :: f in fuels ==> f.mode == CurrentOnly
    ensures MonthTotal(fuels, eff, p).target == 0.0
    decreases |fuels|
  {
    if fuels != [] {
      var init := fuels[..|fuels| - 1];
      assert forall f :: f in init ==> f in fuels;
      CurrentOnlyAddsNoTarget(init, eff, p);
    }
  }

  lemma {:induction false} SumCurrentZero(cps: seq<Checkpoint>)
    requires forall j :: 0 <= j < |cps| ==> cps[j].current == 0.0
    ensures SumCurrent(cps) == 0.0
    decreases |cps|
  {
    if cps != [] {
      SumCurrentZero(cps[..|cps| - 1]);
    }
  }

  /** A goal fed only by target-only fuels shows a total current of 0, whatever its fuels' KPIs hold. */
  lemma TargetOnlyGoal(row: Row, goal: Goal, fuels: seq<Fuel>, eff: map<int, Eff>, range: seq<string>)
    requires IsRowOver(row, goal, fuels, eff, range)
    requires forall f :: f in fuels && f.goalId == goal.id ==> f.mode == TargetOnly
    ensures row.totalCurrent == 0.0
  {
    var mine := ForGoal(fuels, goal.id);
    ForGoalMembers(fuels, goal.id);
    forall j | 0 <= j < |row.checkpoints|
      ensures row.checkpoints[j].current == 0.0
    {
      TargetOnlyAddsNoCurrent(mine, eff, range[j]);
    }
    SumCurrentZero(row.checkpoints);
  }

  /** The total target shown is the goal's own total, at least 1, and not the sum of month targets. */
  lemma TotalTargetAtLeastOne(row: Row, goal: Goal, fuels: seq<Fuel>, eff: map<int, Eff>, range: seq<string>)
    requires IsRowOver(row, goal, fuels, eff, range)
    ensures row.totalTarget >= 1.0
    ensures goal.targetTotal >= 1.0 ==> row.totalTarget == goal.targetTotal
  {
  }

  /** Between two real months the row has one checkpoint per month, labelled in order. */
  lemma CheckpointPerMonth(row: Row, goal: Goal, fuels: seq<Fuel>, eff: map<int, Eff>,
                           sy: nat, sm: nat, ey: nat, em: nat)
    requires 1 <= sm <= 12 && 1 <= em <= 12
    requires goal.startMonth == Label(sy, sm) && goal.endMonth == Label(ey, em)
    requires IsRowOf(row, goal, fuels, eff)
    ensures |row.checkpoints| == if Index(sy, sm) <= Index(ey, em) then Index(ey, em) - Index(sy, sm) + 1 else 0
    ensures forall j :: 0 <= j < |row.checkpoints| ==>
              row.checkpoints[j].period == Label(MonthOf(Index(sy, sm) + j).0, MonthOf(Index(sy, sm) + j).1)
  {
    NormalizeLabel(sy, sm);
    NormalizeLabel(ey, em);
    MonthsBetweenLabels(sy, sm, ey, em);
    MonthsClosedForm(sy, sm, ey, em);
  }

  // ---- Validation ----

  /** The dialog's text fields, as typed. */
  datatype KpiForm = KpiForm(title: string, current: string, target: string, unit: string, parentId: string, period: string)

  /** The error object of `validate`: which of its keys are set. */
  datatype Errors = Errors(title: bool, current: bool, target: bool, parentId: bool, period: bool)

  /** The number of keys set, as `Object.keys(e).length`. */
  function KeyCount(e: Errors): (n: nat)
    ensures n <= 5
    ensures n == 0 <==> !e.title && !e.current && !e.target && !e.parentId && !e.period
  {
    (if e.title then 1 else 0) + (if e.current then 1 else 0) + (if e.target then 1 else 0)
    + (if e.parentId then 1 else 0) + (if e.period then 1 else 0)
  }

  /** `validate`: the errors of the dialog's fields. */
  function Validate(form: KpiForm, isWeekly: bool, hasPeriod: bool): Errors {
    Errors(Trim(form.title) == [], form.current == [], form.target == [],
           isWeekly && form.parentId == [], !isWeekly && hasPeriod && form.period == [])
  }

  /** `validate()` returns true exactly when no key of the error object is set. */
  function IsValid(form: KpiForm, isWeekly: bool, hasPeriod: bool): (ok: bool)
    ensures ok <==> (exists i :: 0 <= i < |form.title| && !IsJsSpace(form.title[i]))
                    && form.current != [] && form.target != []
                    && (isWeekly ==> form.parentId != []) && (!isWeekly && hasPeriod ==> form.period != [])
  {
    KeyCount(Validate(form, isWeekly, hasPeriod)) == 0
  }

  /** A weekly KPI never needs a month, and a monthly KPI never needs a parent. */
  lemma KindSpecificFields(form: KpiForm, hasPeriod: bool)
    ensures !Validate(form, true, hasPeriod).period
    ensures !Validate(form, false, hasPeriod).parentId
    ensures !Validate(form, false, false).period
  {
  }
}

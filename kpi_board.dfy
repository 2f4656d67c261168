/**
 * The KPI board: monthly KPIs with weekly children, the colour bands of a progress ratio, the save of the
 * edit dialog (an upsert guarded by required fields and by the rule that a weekly KPI uses its parent's
 * unit), and a monthly KPI's current value derived from its weekly children.
 */
module KpiBoard {
  import opened Wrappers

  /** A KPI; `parentId == None` is a monthly KPI, otherwise a weekly KPI under that parent. */
  datatype Kpi = Kpi(id: int, title: string, current: real, target: real, unit: Option<string>, parentId: Option<int>)

  /**
   * The dialog's fields. A `type="number"` input yields either "" or a valid number, so `current` and
   * `target` are `None` for "" and the number otherwise; `parentId` is `None` until a monthly KPI is picked.
   */
  datatype Form = Form(title: string, current: Option<real>, target: Option<real>, unit: string, parentId: Option<int>)

  /** A quotient as JavaScript computes it: division by 0 gives an infinity or `NaN`. */
  datatype Ratio = Finite(value: real) | PlusInfinity | MinusInfinity | NaN

  function Divide(a: real, b: real): (r: Ratio)
    ensures b != 0.0 ==> r == Finite(a / b)
    ensures b == 0.0 ==> (r.PlusInfinity? <==> a > 0.0) && (r.MinusInfinity? <==> a < 0.0) && (r.NaN? <==> a == 0.0)
  {
    if b != 0.0 then Finite(a / b)
    else if a > 0.0 then PlusInfinity
    else if a < 0.0 then MinusInfinity
    else NaN
  }

  /** `p >= t`: false for `NaN` and minus infinity, true for plus infinity. */
  predicate AtLeast(p: Ratio, t: real) {
    match p
    case Finite(v) => v >= t
    case PlusInfinity => true
    case MinusInfinity => false
    case NaN => false
  }

  datatype Band = Red | Orange | Yellow | Green

  function Rank(b: Band): nat {
    match b
    case Red => 0
    case Orange => 1
    case Yellow => 2
    case Green => 3
  }

  /** The band both `progressColor` and `textColor` pick: from 0.8 green, from 0.6 yellow, from 0.25 orange, else red. */
  function BandOf(p: Ratio): (b: Band)
    ensures b == Green <==> AtLeast(p, 0.8)
    ensures b == Yellow <==> AtLeast(p, 0.6) && !AtLeast(p, 0.8)
    ensures b == Orange <==> AtLeast(p, 0.25) && !AtLeast(p, 0.6)
    ensures b == Red <==> !AtLeast(p, 0.25)
  {
    if AtLeast(p, 0.8) then Green
    else if AtLeast(p, 0.6) then Yellow
    else if AtLeast(p, 0.25) then Orange
    else Red
  }

  function ProgressColor(p: Ratio): string {
    match BandOf(p)
    case Green => "bg-green-500"
    case Yellow => "bg-yellow-400"
    case Orange => "bg-orange-400"
    case Red => "bg-red-500"
  }

  function TextColor(p: Ratio): string {
    match BandOf(p)
    case Green => "text-green-600"
    case Yellow => "text-yellow-600"
    case Orange => "text-orange-600"
    case Red => "text-red-600"
  }

  /** A higher finite ratio never gets a lower band. */
  lemma BandMonotone(p: real, q: real)
    requires p <= q
    ensures Rank(BandOf(Finite(p))) <= Rank(BandOf(Finite(q)))
  {
  }

  /** Both colour functions agree on the band: the bar and the figure never disagree. */
  lemma ColoursAgree(p: Ratio, q: Ratio)
    ensures ProgressColor(p) == ProgressColor(q) <==> TextColor(p) == TextColor(q)
  {
  }

  /** A target of 0 makes any positive current green and leaves 0 (`NaN`) red. */
  lemma ZeroTarget(current: real)
    ensures current > 0.0 ==> BandOf(Divide(current, 0.0)) == Green
    ensures current <= 0.0 ==> BandOf(Divide(current, 0.0)) == Red
  {
  }

  predicate IsMonthly(k: Kpi) {
    k.parentId.None?
  }

  /** `kpis.filter(...)`: the monthly KPIs, or the weekly ones, in list order. */
  function Monthly(kpis: seq<Kpi>): (r: seq<Kpi>)
    ensures forall k :: k in r <==> k in kpis && IsMonthly(k)
    ensures |r| <= |kpis|
    decreases |kpis|
  {
    if kpis == [] then []
    else
      var rest := Monthly(kpis[..|kpis| - 1]);
      assert kpis == kpis[..|kpis| - 1] + [kpis[|kpis| - 1]];
      var last := kpis[|kpis| - 1];
      if IsMonthly(last) then rest + [last] else rest
  }

  function Weekly(kpis: seq<Kpi>): (r: seq<Kpi>)
    ensures forall k :: k in r <==> k in kpis && !IsMonthly(k)
    ensures |r| <= |kpis|
    decreases |kpis|
  {
    if kpis == [] then []
    else
      var rest := Weekly(kpis[..|kpis| - 1]);
      assert kpis == kpis[..|kpis| - 1] + [kpis[|kpis| - 1]];
      var last := kpis[|kpis| - 1];
      if !IsMonthly(last) then rest + [last] else rest
  }

  /** Every KPI is shown exactly once: as a monthly KPI or as a weekly one. */
  lemma {:induction false} MonthlyWeeklyPartition(kpis: seq<Kpi>)
    ensures |Monthly(kpis)| + |Weekly(kpis)| == |kpis|
    decreases |kpis|
  {
    if kpis != [] {
      MonthlyWeeklyPartition(kpis[..|kpis| - 1]);
    }
  }

  /** `weekly.filter((w) => w.parentId === id)`: the children of a monthly KPI, in list order. */
  function Children(kpis: seq<Kpi>, id: int): (r: seq<Kpi>)
    ensures forall k :: k in r <==> k in kpis && k.parentId == Some(id)
    decreases |kpis|
  {
    if kpis == [] then []
    else
      var rest := Children(kpis[..|kpis| - 1], id);
      assert kpis == kpis[..|kpis| - 1] + [kpis[|kpis| - 1]];
      var last := kpis[|kpis| - 1];
      if last.parentId == Some(id) then rest + [last] else rest
  }

  /** `children.reduce((sum, c) => sum + c.current, 0)`. */
  function CurrentSum(children: seq<Kpi>): real
    decreases |children|
  {
    if children == [] then 0.0 else CurrentSum(children[..|children| - 1]) + children[|children| - 1].current
  }

  /** The figure a monthly KPI shows: its children's summed current when it has children, else its own. */
  function DerivedCurrent(kpis: seq<Kpi>, kpi: Kpi): (c: real)
    ensures (forall k :: k in kpis ==> k.parentId != Some(kpi.id)) ==> c == kpi.current
  {
    var children := Children(Weekly(kpis), kpi.id);
    if |children| > 0 then CurrentSum(children) else kpi.current
  }

  /** Taking the weekly KPIs first changes nothing: a child points at a parent, so it is weekly. */
  lemma {:induction false} ChildrenAreWeekly(kpis: seq<Kpi>, id: int)
    ensures Children(Weekly(kpis), id) == Children(kpis, id)
    decreases |kpis|
  {
    if kpis != [] {
      var init := kpis[..|kpis| - 1];
      ChildrenAreWeekly(init, id);
    }
  }

  /** With children, the derived current is the sum of the children's current over the whole list. */
  lemma DerivedFromChildren(kpis: seq<Kpi>, kpi: Kpi)
    requires exists k :: k in kpis && k.parentId == Some(kpi.id)
    ensures DerivedCurrent(kpis, kpi) == CurrentSum(Children(kpis, kpi.id))
  {
    ChildrenAreWeekly(kpis, kpi.id);
    var k :| k in kpis && k.parentId == Some(kpi.id);
    assert k in Children(kpis, kpi.id);
  }

  /** A new weekly child adds its current to its parent's derived figure (or replaces the parent's own value). */
  lemma NewChildAdds(kpis: seq<Kpi>, kpi: Kpi, child: Kpi)
    requires child.parentId == Some(kpi.id)
    ensures CurrentSum(Children(kpis + [child], kpi.id)) == CurrentSum(Children(kpis, kpi.id)) + child.current
  {
    assert (kpis + [child])[..|kpis|] == kpis;
    var c := Children(kpis + [child], kpi.id);
    assert c[..|c| - 1] == Children(kpis, kpi.id);
  }

  /** The position of the first KPI with the id. */
  function FirstWithId(kpis: seq<Kpi>, id: int): (r: Option<nat>)
    ensures r.None? <==> forall i :: 0 <= i < |kpis| ==> kpis[i].id != id
    ensures r.Some? ==> r.value < |kpis| && kpis[r.value].id == id && forall j :: 0 <= j < r.value ==> kpis[j].id != id
    decreases |kpis|
  {
    if kpis == [] then None
    else if kpis[0].id == id then Some(0)
    else
      var r := FirstWithId(kpis[1..], id);
      assert forall i :: 1 <= i < |kpis| ==> kpis[i] == kpis[1..][i - 1];
      if r.None? then None else Some(r.value + 1)
  }

  /** `kpis.find((k) => k.id === id)`. */
  function FindById(kpis: seq<Kpi>, id: int): Option<Kpi> {
    match FirstWithId(kpis, id)
    case None => None
    case Some(i) => Some(kpis[i])
  }

  /** `parent?.unit ?? ""`: the unit of the parent a weekly KPI names, "" when it has none or is not found. */
  function ParentUnit(kpis: seq<Kpi>, parentId: int): string {
    match FindById(kpis, parentId)
    case None => ""
    case Some(p) => p.unit.GetOr("")
  }

  /** `kpis.map((k) => (k.id === id ? parsed : k))`. */
  function ReplaceById(kpis: seq<Kpi>, id: int, parsed: Kpi): (r: seq<Kpi>)
    ensures |r| == |kpis|
    ensures forall i :: 0 <= i < |kpis| ==> r[i] == if kpis[i].id == id then parsed else kpis[i]
  {
    seq(|kpis|, i requires 0 <= i < |kpis| => if kpis[i].id == id then parsed else kpis[i])
  }

  predicate UniqueIds(kpis: seq<Kpi>) {
    forall i, j :: 0 <= i < j < |kpis| ==> kpis[i].id != kpis[j].id
  }

  /** With unique ids, editing is an update at the one position that holds the id. */
  lemma ReplaceIsUpdate(kpis: seq<Kpi>, j: nat, parsed: Kpi)
    requires UniqueIds(kpis) && j < |kpis|
    ensures ReplaceById(kpis, kpis[j].id, parsed) == kpis[j := parsed]
  {
  }

  datatype SaveStatus = Ignored | UnitMismatch(parentUnit: string) | Saved

  /** What `save` leaves: the list `setKpis` receives (the old one when nothing is saved) and what happened. */
  datatype SaveResult = SaveResult(kpis: seq<Kpi>, status: SaveStatus)

  /** A required field is blank, or a weekly KPI has no parent picked. */
  predicate Incomplete(form: Form, isWeekly: bool) {
    form.title == "" || form.current.None? || form.target.None? || (isWeekly && form.parentId.None?)
  }

  /** The KPI `save` builds from a complete form; a new KPI's id is the clock's `Date.now()`. */
  function Parsed(form: Form, isWeekly: bool, editing: Option<Kpi>, now: int): Kpi
    requires !Incomplete(form, isWeekly)
  {
    Kpi(if editing.Some? then editing.value.id else now, form.title, form.current.value, form.target.value,
        if form.unit == "" then None else Some(form.unit), if isWeekly then Some(form.parentId.value) else None)
  }

  /** `save`: the guards, the unit check for weekly KPIs, then replace the edited KPI or append a new one. */
  function Save(kpis: seq<Kpi>, form: Form, isWeekly: bool, editing: Option<Kpi>, now: int): (r: SaveResult)
    ensures !r.status.Saved? ==> r.kpis == kpis
    ensures r.status == Ignored <==> Incomplete(form, isWeekly)
    ensures r.status.UnitMismatch? <==>
              !Incomplete(form, isWeekly) && isWeekly && ParentUnit(kpis, form.parentId.value) != form.unit
    ensures r.status.Saved? && editing.None? ==>
              r.kpis == kpis + [Parsed(form, isWeekly, editing, now)] && |r.kpis| == |kpis| + 1
    ensures r.status.Saved? && editing.Some? ==>
              |r.kpis| == |kpis|
              && forall i :: 0 <= i < |kpis| ==>
                   r.kpis[i] == if kpis[i].id == editing.value.id then Parsed(form, isWeekly, editing, now) else kpis[i]
  {
    if Incomplete(form, isWeekly) then SaveResult(kpis, Ignored)
    else if isWeekly && ParentUnit(kpis, form.parentId.value) != form.unit then
      SaveResult(kpis, UnitMismatch(ParentUnit(kpis, form.parentId.value)))
    else
      var parsed := Parsed(form, isWeekly, editing, now);
      if editing.Some? then SaveResult(ReplaceById(kpis, editing.value.id, parsed), Saved)
      else SaveResult(kpis + [parsed], Saved)
  }

  /** A saved weekly KPI has the unit of the parent it names, as that parent was when it was saved. */
  lemma SavedWeeklyUsesParentUnit(kpis: seq<Kpi>, form: Form, editing: Option<Kpi>, now: int)
    requires Save(kpis, form, true, editing, now).status.Saved?
    ensures var k := Parsed(form, true, editing, now);
            k.parentId == form.parentId && k.unit.GetOr("") == ParentUnit(kpis, k.parentId.value)
  {
  }

  /** A weekly KPI naming a parent that is not in the list is saved only without a unit. */
  lemma UnknownParentNeedsNoUnit(kpis: seq<Kpi>, form: Form, editing: Option<Kpi>, now: int)
    requires !Incomplete(form, true)
    requires forall i :: 0 <= i < |kpis| ==> kpis[i].id != form.parentId.value
    ensures Save(kpis, form, true, editing, now).status.Saved? <==> form.unit == ""
  {
  }

  /** Editing a KPI whose id is in the list (ids unique) changes that one element and no other. */
  lemma EditChangesOne(kpis: seq<Kpi>, form: Form, isWeekly: bool, j: nat, now: int)
    requires UniqueIds(kpis) && j < |kpis|
    requires Save(kpis, form, isWeekly, Some(kpis[j]), now).status.Saved?
    ensures Save(kpis, form, isWeekly, Some(kpis[j]), now).kpis == kpis[j := Parsed(form, isWeekly, Some(kpis[j]), now)]
    ensures Parsed(form, isWeekly, Some(kpis[j]), now).id == kpis[j].id
  {
    ReplaceIsUpdate(kpis, j, Parsed(form, isWeekly, Some(kpis[j]), now));
  }
}

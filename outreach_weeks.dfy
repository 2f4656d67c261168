/**
 * Week bucketing and finalisation of the outreach board: the per-day sums are
 * visited in date order and grouped into ISO-8601 weeks, each week keeping its
 * column totals, its first and last day and its per-day breakdown; then every
 * week is rounded and coloured against the weekly goals, and the two tabs of
 * the payload are assembled.
 */
module OutreachWeeks {
  import opened Wrappers
  import opened Text
  import opened Calendar
  import opened Numbers
  import opened OutreachStatus
  import opened OutreachIngest

  /** One day of a week: its date and its merged sums (Content columns, then Outreach columns). */
  datatype DayRow = DayRow(date: Date, sums: seq<real>)

  /** A week while it is being filled. */
  datatype WeekAcc = WeekAcc(key: WeekKey, start: Date, end: Date, sums: seq<real>, days: seq<DayRow>)

  /** `[...p.contentNums, ...p.outreachNums]`. */
  function MergedNums(p: DayPair): seq<real> {
    p.contentNums + p.outreachNums
  }

  function DayRowOf(byDate: map<Date, DayPair>, d: Date): DayRow
    requires d in byDate
  {
    DayRow(d, MergedNums(byDate[d]))
  }

  /** The day rows of the dates `ds`, in that order. */
  function DayRowsOf(byDate: map<Date, DayPair>, ds: seq<Date>): (rows: seq<DayRow>)
    requires forall d :: d in ds ==> d in byDate
    ensures |rows| == |ds|
  {
    seq(|ds|, i requires 0 <= i < |ds| => DayRowOf(byDate, ds[i]))
  }

  /** Column `i` summed over some days (a day without that column counts 0). */
  function ColumnSum(days: seq<DayRow>, i: nat): real {
    if days == [] then 0.0
    else
      var last := days[|days| - 1];
      ColumnSum(days[..|days| - 1], i) + (if i < |last.sums| then last.sums[i] else 0.0)
  }

  lemma ColumnSumStep(days: seq<DayRow>, row: DayRow, i: nat)
    ensures ColumnSum(days + [row], i) == ColumnSum(days, i) + (if i < |row.sums| then row.sums[i] else 0.0)
  {
    assert (days + [row])[..|days|] == days;
  }

  /** The days of the weeks listed in `order`, one week after the other. */
  function Flatten(order: seq<WeekKey>, weekMap: map<WeekKey, WeekAcc>): seq<DayRow>
    requires forall k :: k in order ==> k in weekMap
  {
    if order == [] then []
    else Flatten(order[..|order| - 1], weekMap) + weekMap[order[|order| - 1]].days
  }

  /** A well-formed week: non-empty, all days in this ISO week, `start`/`end` its first and last day, totals per column. */
  predicate WeekOk(w: WeekAcc, width: nat, weekOf: Date -> WeekKey) {
    && |w.days| > 0
    && w.start == w.days[0].date
    && w.end == w.days[|w.days| - 1].date
    && (forall j :: 0 <= j < |w.days| ==>
          ValidDate(w.days[j].date) && weekOf(w.days[j].date) == w.key && |w.days[j].sums| == width)
    && |w.sums| == width
    && forall i :: 0 <= i < width ==> w.sums[i] == ColumnSum(w.days, i)
  }

  predicate Ascending(order: seq<WeekKey>) {
    forall i, j :: 0 <= i < j < |order| ==> WeekBefore(order[i], order[j])
  }

  /** The state of the bucketing loop after the dates `done`. */
  ghost predicate WeeksInv(order: seq<WeekKey>, weekMap: map<WeekKey, WeekAcc>, byDate: map<Date, DayPair>,
                           done: seq<Date>, width: nat, weekOf: Date -> WeekKey) {
    && (forall k :: k in order ==> k in weekMap)
    && (forall k :: k in weekMap ==> k in order)
    && (forall i :: 0 <= i < |order| ==> weekMap[order[i]].key == order[i] && WeekOk(weekMap[order[i]], width, weekOf))
    && Ascending(order)
    && (forall d :: d in done ==> d in byDate)
    && Flatten(order, weekMap) == DayRowsOf(byDate, done)
    && (done != [] ==> order != [] && weekMap[order[|order| - 1]].end == done[|done| - 1])
  }

  /** The loop invariant from its parts. */
  lemma WeeksInvIntro(order: seq<WeekKey>, weekMap: map<WeekKey, WeekAcc>, byDate: map<Date, DayPair>,
                      done: seq<Date>, width: nat, weekOf: Date -> WeekKey)
    requires forall k :: k in order ==> k in weekMap
    requires forall k :: k in weekMap ==> k in order
    requires forall i :: 0 <= i < |order| ==> weekMap[order[i]].key == order[i] && WeekOk(weekMap[order[i]], width, weekOf)
    requires Ascending(order)
    requires forall d :: d in done ==> d in byDate
    requires Flatten(order, weekMap) == DayRowsOf(byDate, done)
    requires done != [] ==> order != [] && weekMap[order[|order| - 1]].end == done[|done| - 1]
    ensures WeeksInv(order, weekMap, byDate, done, width, weekOf)
  {
  }

  lemma {:induction false} FlattenMember(order: seq<WeekKey>, weekMap: map<WeekKey, WeekAcc>, i: nat, j: nat)
    requires forall k :: k in order ==> k in weekMap
    requires i < |order| && j < |weekMap[order[i]].days|
    ensures weekMap[order[i]].days[j] in Flatten(order, weekMap)
  {
    var n := |order|;
    if i < n - 1 {
      assert order[..n - 1][i] == order[i];
      FlattenMember(order[..n - 1], weekMap, i, j);
    }
  }

  /** Updating a week that is not listed leaves the flattened days alone. */
  lemma {:induction false} FlattenFrame(order: seq<WeekKey>, weekMap: map<WeekKey, WeekAcc>, k: WeekKey, w: WeekAcc)
    requires forall x :: x in order ==> x in weekMap
    requires k !in order
    ensures Flatten(order, weekMap[k := w]) == Flatten(order, weekMap)
  {
    if order != [] {
      FlattenFrame(order[..|order| - 1], weekMap, k, w);
    }
  }

  /** A row of dates strictly before `p` is dated before `p`. */
  lemma RowBefore(byDate: map<Date, DayPair>, done: seq<Date>, p: Date, x: DayRow)
    requires forall d :: d in done ==> d in byDate
    requires StrictlySorted(done + [p]) && ValidDate(p)
    requires x in DayRowsOf(byDate, done)
    ensures ValidDate(x.date) && DayNumber(x.date) < DayNumber(p)
  {
    var rows := DayRowsOf(byDate, done);
    var idx :| 0 <= idx < |rows| && rows[idx] == x;
    assert (done + [p])[idx] == x.date && (done + [p])[|done|] == p;
  }

  /** Every listed day comes before the next date `p`. */
  lemma DayBefore(order: seq<WeekKey>, weekMap: map<WeekKey, WeekAcc>, byDate: map<Date, DayPair>,
                  done: seq<Date>, width: nat, weekOf: Date -> WeekKey, p: Date, i: nat, j: nat)
    requires WeeksInv(order, weekMap, byDate, done, width, weekOf)
    requires StrictlySorted(done + [p]) && ValidDate(p)
    requires i < |order| && j < |weekMap[order[i]].days|
    ensures DayNumber(weekMap[order[i]].days[j].date) < DayNumber(p)
  {
    FlattenMember(order, weekMap, i, j);
    RowBefore(byDate, done, p, weekMap[order[i]].days[j]);
  }

  lemma SeqAssoc<T>(a: seq<T>, b: seq<T>, c: seq<T>)
    ensures a + (b + c) == (a + b) + c
  {
  }

  /** Every week already listed holds a day before `p`, so its key is at most `p`'s week. */
  lemma EarlierWeeks(order: seq<WeekKey>, weekMap: map<WeekKey, WeekAcc>, byDate: map<Date, DayPair>,
                     done: seq<Date>, width: nat, weekOf: Date -> WeekKey, p: Date, i: nat)
    requires WeeksInv(order, weekMap, byDate, done, width, weekOf)
    requires StrictlySorted(done + [p]) && ValidDate(p)
    requires i < |order| && WeekMonotone(weekOf)
    ensures order[i] == weekOf(p) || WeekBefore(order[i], weekOf(p))
  {
    var x := weekMap[order[i]].days[0].date;
    DayBefore(order, weekMap, byDate, done, width, weekOf, p, i, 0);
  }

  /**
   * A week numbering that never goes back as the days advance. The bucketing is proved for any such
   * numbering; the payload uses the ISO week (`WeekOfDay`).
   */
  ghost predicate WeekMonotone(weekOf: Date -> WeekKey) {
    forall a: Date, b: Date ::
      ValidDate(a) && ValidDate(b) && DayNumber(a) <= DayNumber(b) ==>
        weekOf(a) == weekOf(b) || WeekBefore(weekOf(a), weekOf(b))
  }

  /** The ISO week of a date, made total (no caller passes an invalid date). */
  function WeekOfDay(d: Date): (k: WeekKey)
    ensures ValidDate(d) ==> k == IsoWeekOf(d)
  {
    if ValidDate(d) then IsoWeekOf(d) else WeekKey(0, 0)
  }

  /** The ISO week numbering is monotone. */
  lemma WeekOfDayMonotone()
    ensures WeekMonotone(WeekOfDay)
  {
    forall a: Date, b: Date | ValidDate(a) && ValidDate(b) && DayNumber(a) <= DayNumber(b)
      ensures WeekOfDay(a) == WeekOfDay(b) || WeekBefore(WeekOfDay(a), WeekOfDay(b))
    {
      IsoWeekMonotone(a, b);
    }
  }

  /** No listed week comes after `key`. */
  predicate KeysUpTo(order: seq<WeekKey>, key: WeekKey) {
    forall i :: 0 <= i < |order| ==> order[i] == key || WeekBefore(order[i], key)
  }

  lemma WeeksUpToDay(order: seq<WeekKey>, weekMap: map<WeekKey, WeekAcc>, byDate: map<Date, DayPair>,
                     done: seq<Date>, width: nat, weekOf: Date -> WeekKey, p: Date)
    requires WeeksInv(order, weekMap, byDate, done, width, weekOf)
    requires StrictlySorted(done + [p]) && ValidDate(p) && WeekMonotone(weekOf)
    ensures KeysUpTo(order, weekOf(p))
  {
    forall i | 0 <= i < |order| ensures order[i] == weekOf(p) || WeekBefore(order[i], weekOf(p)) {
      EarlierWeeks(order, weekMap, byDate, done, width, weekOf, p, i);
    }
  }

  /** In an ascending list of weeks none of which is after `key`, a listed `key` is the last one. */
  lemma ListedKeyIsLast(order: seq<WeekKey>, key: WeekKey)
    requires Ascending(order) && KeysUpTo(order, key) && key in order
    ensures order[|order| - 1] == key
  {
    var n := |order|;
    forall j | 0 <= j < n - 1 ensures order[j] != key {
      assert WeekBefore(order[j], order[n - 1]);
    }
  }

  /** A new key is after every listed week. */
  lemma NewKeyIsLast(order: seq<WeekKey>, key: WeekKey)
    requires Ascending(order) && KeysUpTo(order, key) && key !in order
    ensures Ascending(order + [key])
  {
    forall i | 0 <= i < |order| ensures WeekBefore(order[i], key) {
      assert order[i] != key;
    }
  }

  lemma DayRowsStep(byDate: map<Date, DayPair>, done: seq<Date>, p: Date)
    requires forall d :: d in done ==> d in byDate
    requires p in byDate
    ensures DayRowsOf(byDate, done + [p]) == DayRowsOf(byDate, done) + [DayRowOf(byDate, p)]
  {
  }

  /** A week with one more day keeps its shape. */
  lemma WeekOkStep(w: WeekAcc, width: nat, weekOf: Date -> WeekKey, p: Date, nums: seq<real>, sums: seq<real>)
    requires WeekOk(w, width, weekOf)
    requires ValidDate(p) && weekOf(p) == w.key && |nums| == width
    requires |sums| == width && forall i :: 0 <= i < width ==> sums[i] == w.sums[i] + nums[i]
    ensures WeekOk(WeekAcc(w.key, w.start, p, sums, w.days + [DayRow(p, nums)]), width, weekOf)
  {
    var days := w.days + [DayRow(p, nums)];
    forall i | 0 <= i < width ensures sums[i] == ColumnSum(days, i) {
      ColumnSumStep(w.days, DayRow(p, nums), i);
    }
  }

  /** `g.sums[i] += dayNums[i]` for every column. */
  method AddSums(sums: seq<real>, dayNums: seq<real>) returns (r: seq<real>)
    requires |sums| == |dayNums|
    ensures |r| == |sums|
    ensures forall i :: 0 <= i < |sums| ==> r[i] == sums[i] + dayNums[i]
  {
    r := sums;
    var i := 0;
    while i < |dayNums|
      invariant 0 <= i <= |dayNums| && |r| == |sums|
      invariant forall j :: 0 <= j < i ==> r[j] == sums[j] + dayNums[j]
      invariant forall j :: i <= j < |sums| ==> r[j] == sums[j]
    {
      r := r[i := r[i] + dayNums[i]];
      i := i + 1;
    }
  }

  /** Appending a new week after the listed ones appends its days. */
  lemma FlattenNewLast(order: seq<WeekKey>, weekMap: map<WeekKey, WeekAcc>, key: WeekKey, w: WeekAcc)
    requires forall k :: k in order ==> k in weekMap
    requires key !in order
    ensures Flatten(order + [key], weekMap[key := w]) == Flatten(order, weekMap) + w.days
  {
    assert (order + [key])[..|order|] == order;
    FlattenFrame(order, weekMap, key, w);
  }

  /** Adding a day to the last listed week appends that day. */
  lemma FlattenGrowLast(order: seq<WeekKey>, weekMap: map<WeekKey, WeekAcc>, w: WeekAcc, row: DayRow)
    requires forall k :: k in order ==> k in weekMap
    requires order != [] && order[|order| - 1] !in order[..|order| - 1]
    requires w.days == weekMap[order[|order| - 1]].days + [row]
    ensures Flatten(order, weekMap[order[|order| - 1] := w]) == Flatten(order, weekMap) + [row]
  {
    var n := |order|;
    var key, prefix := order[n - 1], order[..n - 1];
    FlattenFrame(prefix, weekMap, key, w);
    var front := Flatten(prefix, weekMap);
    SeqAssoc(front, weekMap[key].days, [row]);
  }

  lemma AscendingLastUnique(order: seq<WeekKey>)
    requires Ascending(order) && order != []
    ensures order[|order| - 1] !in order[..|order| - 1]
  {
    var n := |order|;
    forall i | 0 <= i < n - 1 ensures order[i] != order[n - 1] {
      assert WeekBefore(order[i], order[n - 1]);
    }
  }

  /** A week of one day is well formed. */
  lemma SingleDayWeek(w: WeekAcc, width: nat, weekOf: Date -> WeekKey, p: Date, nums: seq<real>)
    requires ValidDate(p) && |nums| == width
    requires w == WeekAcc(weekOf(p), p, p, nums, [DayRow(p, nums)])
    ensures WeekOk(w, width, weekOf)
  {
    forall i | 0 <= i < width ensures w.sums[i] == ColumnSum(w.days, i) {
      ColumnSumStep([], w.days[0], i);
      assert [] + [w.days[0]] == w.days;
    }
  }

  /** Listing one more well-formed week keeps every listed week well formed. */
  lemma WeeksOkAppend(order: seq<WeekKey>, weekMap: map<WeekKey, WeekAcc>, width: nat, weekOf: Date -> WeekKey, w: WeekAcc)
    requires forall i :: 0 <= i < |order| ==> order[i] in weekMap && weekMap[order[i]].key == order[i] && WeekOk(weekMap[order[i]], width, weekOf)
    requires w.key !in order && WeekOk(w, width, weekOf)
    ensures var o2, m2 := order + [w.key], weekMap[w.key := w];
            forall i :: 0 <= i < |o2| ==> m2[o2[i]].key == o2[i] && WeekOk(m2[o2[i]], width, weekOf)
  {
    var o2, m2 := order + [w.key], weekMap[w.key := w];
    forall i | 0 <= i < |o2| ensures m2[o2[i]].key == o2[i] && WeekOk(m2[o2[i]], width, weekOf) {
      if i < |order| {
        assert o2[i] == order[i] && m2[o2[i]] == weekMap[order[i]];
      }
    }
  }

  /** The case of a day whose week is new: the week is appended after all others. */
  lemma NewWeekOk(order: seq<WeekKey>, weekMap: map<WeekKey, WeekAcc>, byDate: map<Date, DayPair>,
                  done: seq<Date>, width: nat, weekOf: Date -> WeekKey, p: Date, w: WeekAcc)
    requires WeeksInv(order, weekMap, byDate, done, width, weekOf)
    requires p in byDate && ValidDate(p) && |MergedNums(byDate[p])| == width
    requires w == WeekAcc(weekOf(p), p, p, MergedNums(byDate[p]), [DayRowOf(byDate, p)])
    requires w.key !in weekMap && Ascending(order + [w.key])
    ensures WeeksInv(order + [w.key], weekMap[w.key := w], byDate, done + [p], width, weekOf)
  {
    SingleDayWeek(w, width, weekOf, p, MergedNums(byDate[p]));
    WeeksOkAppend(order, weekMap, width, weekOf, w);
    FlattenNewLast(order, weekMap, w.key, w);
    DayRowsStep(byDate, done, p);
    var o2, d2 := order + [w.key], done + [p];
    assert o2[|o2| - 1] == w.key && d2[|d2| - 1] == p;
    WeeksInvIntro(o2, weekMap[w.key := w], byDate, d2, width, weekOf);
  }

  /** Replacing a listed week by a well-formed one with the same key keeps every listed week well formed. */
  lemma WeeksOkReplace(order: seq<WeekKey>, weekMap: map<WeekKey, WeekAcc>, width: nat, weekOf: Date -> WeekKey, w: WeekAcc)
    requires forall i :: 0 <= i < |order| ==> order[i] in weekMap && weekMap[order[i]].key == order[i] && WeekOk(weekMap[order[i]], width, weekOf)
    requires WeekOk(w, width, weekOf)
    ensures var m2 := weekMap[w.key := w];
            forall i :: 0 <= i < |order| ==> m2[order[i]].key == order[i] && WeekOk(m2[order[i]], width, weekOf)
  {
  }

  /** The case of a day whose week is the last one: the day is appended to it. */
  lemma SameWeekOk(order: seq<WeekKey>, weekMap: map<WeekKey, WeekAcc>, byDate: map<Date, DayPair>,
                   done: seq<Date>, width: nat, weekOf: Date -> WeekKey, p: Date, w: WeekAcc)
    requires WeeksInv(order, weekMap, byDate, done, width, weekOf)
    requires p in byDate && ValidDate(p) && |MergedNums(byDate[p])| == width
    requires order != [] && order[|order| - 1] == weekOf(p)
    requires var g := weekMap[weekOf(p)];
             w == WeekAcc(g.key, g.start, p, w.sums, g.days + [DayRowOf(byDate, p)])
             && |w.sums| == width
             && (forall i :: 0 <= i < width ==> w.sums[i] == g.sums[i] + MergedNums(byDate[p])[i])
    ensures WeeksInv(order, weekMap[weekOf(p) := w], byDate, done + [p], width, weekOf)
  {
    var g := weekMap[weekOf(p)];
    WeekOkStep(g, width, weekOf, p, MergedNums(byDate[p]), w.sums);
    WeeksOkReplace(order, weekMap, width, weekOf, w);
    AscendingLastUnique(order);
    FlattenGrowLast(order, weekMap, w, DayRowOf(byDate, p));
    DayRowsStep(byDate, done, p);
    var d2 := done + [p];
    assert d2[|d2| - 1] == p;
    WeeksInvIntro(order, weekMap[weekOf(p) := w], byDate, d2, width, weekOf);
  }

  /** The first and last day of the last week come before the next date `p`. */
  lemma LastWeekBefore(order: seq<WeekKey>, weekMap: map<WeekKey, WeekAcc>, byDate: map<Date, DayPair>,
                       done: seq<Date>, width: nat, weekOf: Date -> WeekKey, p: Date)
    requires WeeksInv(order, weekMap, byDate, done, width, weekOf)
    requires StrictlySorted(done + [p]) && ValidDate(p) && order != []
    ensures var g := weekMap[order[|order| - 1]];
            DayNumber(g.start) < DayNumber(p) && DayNumber(g.end) < DayNumber(p)
  {
    DayBefore(order, weekMap, byDate, done, width, weekOf, p, |order| - 1, 0);
    assert done != [] by {
      FlattenMember(order, weekMap, |order| - 1, 0);
    }
    var all := done + [p];
    assert all[|done| - 1] == done[|done| - 1] && all[|done|] == p;
  }

  /** One pass of the bucketing loop: the day `p` is added to its week, creating the week if needed. */
  method AddDay(order: seq<WeekKey>, weekMap: map<WeekKey, WeekAcc>, byDate: map<Date, DayPair>,
                ghost done: seq<Date>, width: nat, weekOf: Date -> WeekKey, p: Date)
    returns (order': seq<WeekKey>, weekMap': map<WeekKey, WeekAcc>)
    requires WeeksInv(order, weekMap, byDate, done, width, weekOf)
    requires StrictlySorted(done + [p]) && ValidDate(p) && p in byDate && |MergedNums(byDate[p])| == width
    requires WeekMonotone(weekOf)
    ensures WeeksInv(order', weekMap', byDate, done + [p], width, weekOf)
  {
    var key := weekOf(p);
    WeeksUpToDay(order, weekMap, byDate, done, width, weekOf, p);
    var dayNums := byDate[p].contentNums + byDate[p].outreachNums;
    if key !in weekMap {
      var sums := AddSums(Zeros(width), dayNums);
      NewKeyIsLast(order, key);
      var w := WeekAcc(key, p, p, sums, [DayRow(p, dayNums)]);
      NewWeekOk(order, weekMap, byDate, done, width, weekOf, p, w);
      order' := order + [key];
      weekMap' := weekMap[key := w];
    } else {
      ListedKeyIsLast(order, key);
      LastWeekBefore(order, weekMap, byDate, done, width, weekOf, p);
      var g := weekMap[key];
      var start := if DayNumber(p) < DayNumber(g.start) then p else g.start;
      var end := if DayNumber(p) > DayNumber(g.end) then p else g.end;
      var sums := AddSums(g.sums, dayNums);
      var w := WeekAcc(key, start, end, sums, g.days + [DayRow(p, dayNums)]);
      SameWeekOk(order, weekMap, byDate, done, width, weekOf, p, w);
      order' := order;
      weekMap' := weekMap[key := w];
    }
  }

  /** The dates of some day rows. */
  function DatesOf(days: seq<DayRow>): (ds: seq<Date>)
    ensures |ds| == |days|
  {
    seq(|days|, i requires 0 <= i < |days| => days[i].date)
  }

  /** The days of a list of weeks, one week after the other. */
  function AllDays(weeks: seq<WeekAcc>): seq<DayRow> {
    if weeks == [] then [] else AllDays(weeks[..|weeks| - 1]) + weeks[|weeks| - 1].days
  }

  function WeeksOf(order: seq<WeekKey>, weekMap: map<WeekKey, WeekAcc>): (weeks: seq<WeekAcc>)
    requires forall k :: k in order ==> k in weekMap
    ensures |weeks| == |order|
  {
    seq(|order|, i requires 0 <= i < |order| => weekMap[order[i]])
  }

  lemma {:induction false} AllDaysOfWeeks(order: seq<WeekKey>, weekMap: map<WeekKey, WeekAcc>)
    requires forall k :: k in order ==> k in weekMap
    ensures AllDays(WeeksOf(order, weekMap)) == Flatten(order, weekMap)
  {
    if order != [] {
      var n := |order|;
      AllDaysOfWeeks(order[..n - 1], weekMap);
      assert WeeksOf(order, weekMap)[..n - 1] == WeeksOf(order[..n - 1], weekMap);
    }
  }

  lemma WeeksOfOk(order: seq<WeekKey>, weekMap: map<WeekKey, WeekAcc>, width: nat, weekOf: Date -> WeekKey)
    requires forall k :: k in order ==> k in weekMap
    requires forall i :: 0 <= i < |order| ==> weekMap[order[i]].key == order[i] && WeekOk(weekMap[order[i]], width, weekOf)
    requires Ascending(order)
    ensures var weeks := WeeksOf(order, weekMap);
            && (forall i :: 0 <= i < |weeks| ==> WeekOk(weeks[i], width, weekOf))
            && (forall i, j :: 0 <= i < j < |weeks| ==> WeekBefore(weeks[i].key, weeks[j].key))
  {
    var weeks := WeeksOf(order, weekMap);
    forall i, j | 0 <= i < j < |weeks| ensures WeekBefore(weeks[i].key, weeks[j].key) {
      assert weeks[i].key == order[i] && weeks[j].key == order[j];
    }
  }

  lemma DatesOfRows(byDate: map<Date, DayPair>, ds: seq<Date>)
    requires forall d :: d in ds ==> d in byDate
    ensures DatesOf(DayRowsOf(byDate, ds)) == ds
  {
  }

  /** The days of the bucketed weeks are the sorted dates of `byDate` with their merged sums. */
  lemma BucketDays(byDate: map<Date, DayPair>, flattened: seq<Date>, days: seq<DayRow>)
    requires StrictlySorted(flattened)
    requires forall d :: d in byDate <==> d in flattened
    requires days == DayRowsOf(byDate, flattened)
    ensures StrictlySorted(DatesOf(days))
    ensures forall d :: d in byDate <==> d in DatesOf(days)
    ensures forall j :: 0 <= j < |days| ==> days[j].date in byDate && days[j].sums == MergedNums(byDate[days[j].date])
  {
    DatesOfRows(byDate, flattened);
  }

  /** One more date of a strictly sorted list keeps the prefix strictly sorted. */
  lemma PrefixStep(dates: seq<Date>, k: nat)
    requires StrictlySorted(dates) && k < |dates|
    ensures dates[..k + 1] == dates[..k] + [dates[k]]
    ensures StrictlySorted(dates[..k] + [dates[k]]) && ValidDate(dates[k])
  {
    assert dates[..k + 1] == dates[..k] + [dates[k]];
  }

  /** The bucketing loop of `fetchFromSheets`: the dates in ascending order, each added to its week. */
  method BucketLoop(byDate: map<Date, DayPair>, dates: seq<Date>, width: nat, weekOf: Date -> WeekKey)
    returns (order: seq<WeekKey>, weekMap: map<WeekKey, WeekAcc>)
    requires StrictlySorted(dates) && WeekMonotone(weekOf)
    requires forall d :: d in dates ==> d in byDate && |MergedNums(byDate[d])| == width
    ensures WeeksInv(order, weekMap, byDate, dates, width, weekOf)
  {
    order, weekMap := [], map[];
    var k := 0;
    while k < |dates|
      invariant 0 <= k <= |dates|
      invariant WeeksInv(order, weekMap, byDate, dates[..k], width, weekOf)
    {
      var p := dates[k];
      PrefixStep(dates, k);
      order, weekMap := AddDay(order, weekMap, byDate, dates[..k], width, weekOf, p);
      k := k + 1;
    }
    assert dates[..k] == dates;
  }

  /**
   * What the bucketing of `fetchFromSheets` and the `(year, week)` sort of its result give: every
   * week is well formed, the weeks ascend strictly, and read one after the other their days are
   * exactly the days of `byDate` in date order, each with its merged sums.
   */
  ghost predicate Bucketed(weeks: seq<WeekAcc>, byDate: map<Date, DayPair>, width: nat) {
    WeeksInOrder(weeks, width) && DaysInOrder(AllDays(weeks), byDate)
  }

  /** Every week is well formed and the weeks ascend strictly. */
  ghost predicate WeeksInOrder(weeks: seq<WeekAcc>, width: nat) {
    && (forall i :: 0 <= i < |weeks| ==> WeekOk(weeks[i], width, WeekOfDay))
    && (forall i, j :: 0 <= i < j < |weeks| ==> WeekBefore(weeks[i].key, weeks[j].key))
  }

  /** The days are exactly those of `byDate`, in date order, each with its merged sums. */
  ghost predicate DaysInOrder(days: seq<DayRow>, byDate: map<Date, DayPair>) {
    && StrictlySorted(DatesOf(days))
    && (forall d :: d in byDate <==> d in DatesOf(days))
    && (forall j :: 0 <= j < |days| ==> days[j].date in byDate && days[j].sums == MergedNums(byDate[days[j].date]))
  }

  method BucketWeeks(byDate: map<Date, DayPair>, nC: nat, nO: nat) returns (weeks: seq<WeekAcc>)
    requires WellShaped(byDate, nC, nO)
    requires forall d :: d in byDate ==> ValidDate(d)
    ensures Bucketed(weeks, byDate, nC + nO)
  {
    var dates := SortDates(byDate.Keys);
    WeekOfDayMonotone();
    var order, weekMap := BucketLoop(byDate, dates, nC + nO, WeekOfDay);
    weeks := WeeksOf(order, weekMap);
    WeeksOfOk(order, weekMap, nC + nO, WeekOfDay);
    AllDaysOfWeeks(order, weekMap);
    BucketDays(byDate, dates, AllDays(weeks));
  }

  /** Rounding as the payload applies it to every sum. */
  function RoundAll(xs: seq<real>): (r: seq<real>)
    ensures |r| == |xs|
    ensures forall i :: 0 <= i < |xs| ==> xs[i] - 1.0 / 200.0 < r[i] <= xs[i] + 1.0 / 200.0
  {
    seq(|xs|, i requires 0 <= i < |xs| => RoundRow(xs[i]))
  }

  function RoundRow(x: real): (r: real)
    ensures x - 1.0 / 200.0 < r <= x + 1.0 / 200.0
  {
    RoundSumIsRound2(x);
    Round2Bounds(x);
    RoundSum(x)
  }

  /** The status of one header's weekly total. */
  function StatusAt(header: string, value: real, future: bool): (s: Option<Status>)
    ensures s.Some? <==> !future && GoalKeyFromHeader(header).Some?
    ensures s.Some? ==> s == Some(StatusFromPct(value / WeeklyGoals[GoalKeyFromHeader(header).value] as real))
  {
    var key := GoalKeyFromHeader(header);
    if key.None? then None
    else
      var goal := WeeklyGoals[key.value];
      if goal == 0 then None
      else if future then None
      else Some(StatusFromPct(value / goal as real))
  }

  /** One status per header, each measured against its rounded column total. */
  function Statuses(headers: seq<string>, sums: seq<real>, future: bool): (st: seq<Option<Status>>)
    ensures |st| == |headers|
    ensures forall i :: 0 <= i < |headers| ==> (st[i].Some? <==> !future && GoalKeyFromHeader(headers[i]).Some?)
  {
    seq(|headers|, i requires 0 <= i < |headers| => StatusAt(headers[i], if i < |sums| then sums[i] else 0.0, future))
  }

  /** No status is shown for a week after the current one. */
  lemma FutureWeeksUncoloured(headers: seq<string>, sums: seq<real>)
    ensures forall i :: 0 <= i < |headers| ==> Statuses(headers, sums, true)[i] == None
  {
  }

  lemma DivMonotone(a: real, b: real, g: real)
    requires a <= b && g > 0.0
    ensures a / g <= b / g
  {
    assert b / g - a / g == (b - a) / g;
  }

  /** A larger weekly total never gets a lower band. */
  lemma StatusGrows(header: string, a: real, b: real, future: bool)
    requires a <= b
    requires StatusAt(header, a, future).Some?
    ensures StatusAt(header, b, future).Some?
    ensures Rank(StatusAt(header, a, future).value) <= Rank(StatusAt(header, b, future).value)
  {
    var k := GoalKeyFromHeader(header).value;
    var g := WeeklyGoals[k] as real;
    DivMonotone(a, b, g);
    StatusMonotone(a / g, b / g);
  }

  /** The text key `YYYY-Www` of a week: a week below 100 ends the text as `-W` and two digits that read back as the week. */
  function WeekKeyText(k: WeekKey): (s: string)
    ensures 0 <= k.week < 100 ==> EndsWithTwoDigits(s, "-W", k.week)
  {
    var week := if k.week < 0 then 0 else k.week;
    var text := IntToString(k.year) + "-W" + PadStart2(NatToString(week));
    if week < 100 then PaddedTail(IntToString(k.year), "-W", week); text else text
  }

  /** `String(y)` is injective: a minus sign only on negatives, and no leading zeros. */
  lemma IntToStringInjective(a: int, b: int)
    requires IntToString(a) == IntToString(b)
    ensures a == b
  {
    SignedText(a);
    SignedText(b);
    if a < 0 {
      NegativeText(a);
      NegativeText(b);
      NatToStringInjective(-a, -b);
    } else {
      NatToStringInjective(a, b);
    }
  }

  lemma NatToStringInjective(a: nat, b: nat)
    requires NatToString(a) == NatToString(b)
    ensures a == b
  {
    NatToStringRoundTrip(a);
    NatToStringRoundTrip(b);
  }

  lemma NegativeText(a: int)
    requires a < 0
    ensures IntToString(a)[1..] == NatToString(-a)
  {
  }

  /** The text starts with a minus sign exactly for negatives. */
  lemma SignedText(a: int)
    ensures IntToString(a)[0] == '-' <==> a < 0
  {
    if a >= 0 {
      assert IsDigit(NatToString(a)[0]);
    }
  }

  lemma SameSuffixLength(x: string, s: string, y: string, t: string)
    requires x + s == y + t && |s| == |t|
    ensures x == y && s == t
  {
    assert x == (x + s)[..|x|];
    assert y == (y + t)[..|y|];
    assert s == (x + s)[|x|..];
    assert t == (y + t)[|y|..];
  }

  /** `YYYY-Www` is the year's digits, then `-W`, then exactly two digits that spell the week. */
  lemma WeekKeyTextParts(k: WeekKey)
    requires 1 <= k.week <= 53
    ensures var pad := PadStart2(NatToString(k.week));
            && |"-W" + pad| == 4
            && WeekKeyText(k) == IntToString(k.year) + ("-W" + pad)
            && ("-W" + pad)[2..] == pad
            && DigitsValue(pad) == k.week
  {
    PadStart2Small(k.week);
  }

  /** Distinct ISO weeks have distinct text keys, so keying the week map by text or by pair is the same. */
  lemma WeekKeyTextInjective(a: WeekKey, b: WeekKey)
    requires 1 <= a.week <= 53 && 1 <= b.week <= 53
    requires WeekKeyText(a) == WeekKeyText(b)
    ensures a == b
  {
    var pa, pb := PadStart2(NatToString(a.week)), PadStart2(NatToString(b.week));
    WeekKeyTextParts(a);
    WeekKeyTextParts(b);
    SameSuffixLength(IntToString(a.year), "-W" + pa, IntToString(b.year), "-W" + pb);
    IntToStringInjective(a.year, b.year);
  }

  /** One day of the payload: its `YYYY-MM-DD` key and its rounded sums. */
  datatype DayOut = DayOut(date: string, sums: seq<real>)

  /** One week of the payload. */
  datatype WeekAgg = WeekAgg(key: string, week: int, year: int, start: string, end: string,
                             sums: seq<real>, days: seq<DayOut>, statuses: seq<Option<Status>>)

  function DaysOut(days: seq<DayRow>): (r: seq<DayOut>)
    ensures |r| == |days|
    ensures forall j :: 0 <= j < |days| ==> r[j].date == Ymd(days[j].date) && |r[j].sums| == |days[j].sums|
  {
    seq(|days|, j requires 0 <= j < |days| => DayOut(Ymd(days[j].date), RoundAll(days[j].sums)))
  }

  /** The finalised form of a week: rounded sums and days, text dates, and statuses unless the week is in the future. */
  function FinalizeWeek(w: WeekAcc, headers: seq<string>, current: WeekKey): (a: WeekAgg)
    ensures a.key == WeekKeyText(w.key) && a.year == w.key.year && a.week == w.key.week
    ensures a.start == Ymd(w.start) && a.end == Ymd(w.end)
    ensures |a.sums| == |w.sums| && |a.days| == |w.days| && |a.statuses| == |headers|
    ensures WeekBefore(current, w.key) ==> forall i :: 0 <= i < |headers| ==> a.statuses[i].None?
  {
    var rounded := RoundAll(w.sums);
    WeekAgg(WeekKeyText(w.key), w.key.week, w.key.year, Ymd(w.start), Ymd(w.end),
            rounded, DaysOut(w.days), Statuses(headers, rounded, WeekBefore(current, w.key)))
  }

  /** In a finished week every column total is within half a cent of the sum of its days. */
  lemma FinalizedSums(w: WeekAcc, width: nat, weekOf: Date -> WeekKey, headers: seq<string>, current: WeekKey, i: nat)
    requires WeekOk(w, width, weekOf) && i < width
    ensures var a := FinalizeWeek(w, headers, current);
            ColumnSum(w.days, i) - 1.0 / 200.0 < a.sums[i] <= ColumnSum(w.days, i) + 1.0 / 200.0
  {
  }

  /** A week up to the current one shows the band of its rounded total for every goal column. */
  lemma FinalizedStatus(w: WeekAcc, headers: seq<string>, current: WeekKey, i: nat)
    requires !WeekBefore(current, w.key)
    requires i < |headers| && i < |w.sums| && GoalKeyFromHeader(headers[i]).Some?
    ensures var a := FinalizeWeek(w, headers, current);
            a.statuses[i] == Some(StatusFromPct(a.sums[i] / WeeklyGoals[GoalKeyFromHeader(headers[i]).value] as real))
  {
    var rounded := RoundAll(w.sums);
    var a := FinalizeWeek(w, headers, current);
    assert a.sums == rounded && a.statuses == Statuses(headers, rounded, false);
    assert a.statuses[i] == StatusAt(headers[i], rounded[i], false);
  }

  /** `(h ?? []).slice(1)`: a header row without its date column. */
  function Tail(headers: seq<string>): (t: seq<string>)
    ensures |t| == if headers == [] then 0 else |headers| - 1
  {
    if headers == [] then [] else headers[1..]
  }

  function Prefixed(tab: string, names: seq<string>): (r: seq<string>)
    ensures |r| == |names|
    ensures forall i :: 0 <= i < |names| ==> r[i] == tab + ":" + names[i]
  {
    seq(|names|, i requires 0 <= i < |names| => tab + ":" + names[i])
  }

  /** `mergedHeadersOut`: the Content columns as `Content:<name>`, then the Outreach columns as `Outreach:<name>`. */
  function MergedHeaders(contentHeaders: seq<string>, outreachHeaders: seq<string>): (h: seq<string>)
    ensures |h| == |Tail(contentHeaders)| + |Tail(outreachHeaders)|
  {
    Prefixed("Content", Tail(contentHeaders)) + Prefixed("Outreach", Tail(outreachHeaders))
  }

  /** A merged header is coloured exactly when its column is named after a goal. */
  lemma MergedHeaderGoal(contentHeaders: seq<string>, outreachHeaders: seq<string>, i: nat, k: string)
    requires i < |MergedHeaders(contentHeaders, outreachHeaders)|
    requires k in WeeklyGoals
    ensures var h := MergedHeaders(contentHeaders, outreachHeaders);
            var c := Tail(contentHeaders);
            var name := if i < |c| then c[i] else Tail(outreachHeaders)[i - |c|];
            name == k ==> GoalKeyFromHeader(h[i]) == Some(k)
  {
    var c := Tail(contentHeaders);
    var h := MergedHeaders(contentHeaders, outreachHeaders);
    if i < |c| {
      assert h[i] == "Content" + ":" + c[i];
      GoalHeadersResolve("Content", k);
    } else {
      var o := Tail(outreachHeaders);
      assert h[i] == "Outreach" + ":" + o[i - |c|];
      GoalHeadersResolve("Outreach", k);
    }
  }

  /** One tab of the payload. */
  datatype TabAgg = TabAgg(tab: string, range: string, headersOut: seq<string>, weeks: seq<WeekAgg>)

  /** The whole payload. */
  datatype ApiAgg = ApiAgg(tabs: seq<TabAgg>, generatedAt: string)

  function FinalizeAll(weeks: seq<WeekAcc>, headers: seq<string>, current: WeekKey): (r: seq<WeekAgg>)
    ensures |r| == |weeks|
  {
    seq(|weeks|, i requires 0 <= i < |weeks| => FinalizeWeek(weeks[i], headers, current))
  }

  /** Payload weeks in strictly ascending (year, week) order. */
  predicate AscendingWeeks(out: seq<WeekAgg>) {
    forall i, j :: 0 <= i < j < |out| ==>
      WeekBefore(WeekKey(out[i].year, out[i].week), WeekKey(out[j].year, out[j].week))
  }

  /** Payload weeks with one sum and one status per header, at least one day and an ISO week number. */
  predicate ShapedWeeks(out: seq<WeekAgg>, width: nat) {
    forall i :: 0 <= i < |out| ==>
      |out[i].sums| == width && |out[i].statuses| == width
      && out[i].days != [] && 1 <= out[i].week <= 53
  }

  /** The finalised ISO weeks keep their order, their widths, their days and a week number in 1 .. 53. */
  lemma FinalizedShape(weeks: seq<WeekAcc>, headers: seq<string>, current: WeekKey, width: nat)
    requires WeeksInOrder(weeks, width) && |headers| == width
    ensures AscendingWeeks(FinalizeAll(weeks, headers, current))
    ensures ShapedWeeks(FinalizeAll(weeks, headers, current), |headers|)
  {
    var out := FinalizeAll(weeks, headers, current);
    forall i | 0 <= i < |out|
      ensures |out[i].sums| == |headers| && |out[i].statuses| == |headers|
      ensures out[i].days != [] && 1 <= out[i].week <= 53
    {
      assert out[i] == FinalizeWeek(weeks[i], headers, current);
      assert WeekOfDay(weeks[i].days[0].date) == weeks[i].key;
    }
    forall i, j | 0 <= i < j < |out|
      ensures WeekBefore(WeekKey(out[i].year, out[i].week), WeekKey(out[j].year, out[j].week))
    {
      assert out[i] == FinalizeWeek(weeks[i], headers, current);
      assert out[j] == FinalizeWeek(weeks[j], headers, current);
    }
  }
}

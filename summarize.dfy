/**
 * Period re-summation over a payload tab (`summarizePeriod`, `summarizePeriodTotals`): the requested
 * columns, named by header or by index, are summed over the days whose date lies in an inclusive
 * window, and each total is rounded to cents.
 *
 * Dates are compared as day numbers after `toDateOnly`; a text that is not a `Y-MM-DD` date is the
 * invalid date, for which every comparison is false.
 */
module Summarize {
  import opened Wrappers
  import opened Text
  import opened Calendar
  import opened Numbers
  import opened OutreachWeeks

  /** A requested column: a header name, or a column index. */
  datatype Param = Name(name: string) | Index(index: int)

  /** The result key of a parameter: the name itself, or `String(index)`. */
  function Key(p: Param): string {
    match p
    case Name(n) => n
    case Index(i) => IntToString(i)
  }

  function KeySet(params: seq<Param>): set<string> {
    set p | p in params :: Key(p)
  }

  lemma KeySetSnoc(params: seq<Param>, p: Param)
    ensures KeySet(params + [p]) == KeySet(params) + {Key(p)}
  {
    assert forall q :: q in params + [p] <==> q in params || q == p;
  }

  lemma KeyInSet(params: seq<Param>, i: nat)
    requires i < |params|
    ensures Key(params[i]) in KeySet(params)
  {
    assert params[i] in params;
  }

  /** `headersOut.indexOf(name)`: the first position of the header, or -1. */
  function HeaderIndex(headers: seq<string>, name: string): (r: int)
    ensures r == -1 <==> name !in headers
    ensures r != -1 ==> 0 <= r < |headers| && headers[r] == name && name !in headers[..r]
  {
    if headers == [] then -1
    else if headers[0] == name then 0
    else
      var k := HeaderIndex(headers[1..], name);
      assert k != -1 ==> headers[1..][..k] == headers[1..k + 1];
      if k == -1 then -1 else k + 1
  }

  /** The column a parameter reads: its index as given, or the position of its header. */
  function Column(headers: seq<string>, p: Param): int {
    match p
    case Name(n) => HeaderIndex(headers, n)
    case Index(i) => i
  }

  /** `params.map(...)`: the column of every parameter. */
  function Columns(headers: seq<string>, params: seq<Param>): (cols: seq<int>)
    ensures |cols| == |params|
    ensures forall i :: 0 <= i < |params| ==> cols[i] == Column(headers, params[i])
  {
    seq(|params|, i requires 0 <= i < |params| => Column(headers, params[i]))
  }

  /**
   * `toDateOnly`: the day number of a `Y-MM-DD` date rebuilt with `new Date(year, month, day)`, which
   * reads years 0 to 99 as 1900 to 1999; `None` for the invalid date.
   */
  function DateValue(s: string): (r: Option<int>)
    ensures r.Some? <==> ParseYmd(s).Some? && ValidDate(ParseYmd(s).value)
    ensures r.Some? && ParseYmd(s).value.year >= 100 ==> r.value == DayNumber(ParseYmd(s).value)
  {
    var d := ParseYmd(s);
    if d.Some? && ValidDate(d.value) then
      if d.value.year >= 100 then MakeDateInRange(d.value); Some(DayNumber(d.value))
      else Some(DayNumber(MakeDate(d.value.year, d.value.month - 1, d.value.day)))
    else None
  }

  /** A date from year 100 on is read as itself. */
  lemma DateValueOfYmd(d: Date)
    requires ValidDate(d) && d.year >= 100
    ensures DateValue(Ymd(d)) == Some(DayNumber(d))
  {
    YmdRoundTrip(d);
    MakeDateInRange(d);
  }

  /**
   * Texts naming a date in years 0 to 99 and the same day 1900 years later are read as the same day,
   * so "0050-01-01" is taken as 1950-01-01.
   */
  lemma TwoDigitYearsRemapped(early: string, late: string, d: Date)
    requires ValidDate(d) && 0 <= d.year <= 99 && ValidDate(Date(d.year + 1900, d.month, d.day))
    requires ParseYmd(early) == Some(d) && ParseYmd(late) == Some(Date(d.year + 1900, d.month, d.day))
    ensures DateValue(early) == DateValue(late)
  {
    var same := Date(d.year + 1900, d.month, d.day);
    MakeDateTwoDigitYear(d.year, d.month - 1, d.day);
    MakeDateInRange(same);
    assert DateValue(early) == Some(DayNumber(MakeDate(d.year, d.month - 1, d.day)));
    assert DateValue(late) == Some(DayNumber(same));
  }

  /** `+a < +b`: false as soon as one side is the invalid date. */
  predicate Less(a: Option<int>, b: Option<int>) {
    a.Some? && b.Some? && a.value < b.value
  }

  /** The window bounds, swapped when the start is after the end. */
  function Window(start: string, end: string): (w: (Option<int>, Option<int>))
    ensures !Less(w.1, w.0)
    ensures w == (DateValue(start), DateValue(end)) || w == (DateValue(end), DateValue(start))
  {
    var s, e := DateValue(start), DateValue(end);
    if Less(e, s) then (e, s) else (s, e)
  }

  /** A day is skipped only when its date is before the start or after the end. */
  predicate InWindow(date: string, lo: Option<int>, hi: Option<int>) {
    var dd := DateValue(date);
    !(Less(dd, lo) || Less(hi, dd))
  }

  /** `Number(day.sums[col] ?? 0)` for a resolved column; a cell past the end of the row is 0. */
  function Cell(day: DayOut, col: int): real {
    if 0 <= col < |day.sums| then day.sums[col] else 0.0
  }

  /** What one day adds to key `k`: the cells of the parameters with that key, unresolved ones skipped. */
  function ParamSum(day: DayOut, headers: seq<string>, params: seq<Param>, k: string): real
    decreases |params|
  {
    if params == [] then 0.0
    else
      var p := params[|params| - 1];
      var col := Column(headers, p);
      ParamSum(day, headers, params[..|params| - 1], k) + (if Key(p) == k && col >= 0 then Cell(day, col) else 0.0)
  }

  /** What a run of days adds to key `k`: only the days inside the window count. */
  function DaysSum(days: seq<DayOut>, headers: seq<string>, params: seq<Param>, lo: Option<int>, hi: Option<int>, k: string): real
    decreases |days|
  {
    if days == [] then 0.0
    else
      var day := days[|days| - 1];
      DaysSum(days[..|days| - 1], headers, params, lo, hi, k)
        + (if InWindow(day.date, lo, hi) then ParamSum(day, headers, params, k) else 0.0)
  }

  function WeeksSum(weeks: seq<WeekAgg>, headers: seq<string>, params: seq<Param>, lo: Option<int>, hi: Option<int>, k: string): real
    decreases |weeks|
  {
    if weeks == [] then 0.0
    else
      WeeksSum(weeks[..|weeks| - 1], headers, params, lo, hi, k)
        + DaysSum(weeks[|weeks| - 1].days, headers, params, lo, hi, k)
  }

  /** The summary of a tab: one rounded total per parameter key. */
  function Summary(tab: TabAgg, start: string, end: string, params: seq<Param>): map<string, real> {
    var w := Window(start, end);
    map k | k in KeySet(params) :: Round2(WeeksSum(tab.weeks, tab.headersOut, params, w.0, w.1, k))
  }

  /** `r` is `result` with what one day adds under the parameters `params`. */
  predicate DayAdded(r: map<string, real>, result: map<string, real>, day: DayOut, headers: seq<string>, params: seq<Param>) {
    r.Keys == result.Keys
    && forall k :: k in r ==> r[k] == result[k] + ParamSum(day, headers, params, k)
  }

  /** The inner loop of `summarizePeriod`: one in-window day added to every parameter's key. */
  method AddDay(result: map<string, real>, day: DayOut, headers: seq<string>, params: seq<Param>, cols: seq<int>)
    returns (r: map<string, real>)
    requires result.Keys == KeySet(params) && cols == Columns(headers, params)
    ensures DayAdded(r, result, day, headers, params)
  {
    r := result;
    var i := 0;
    assert DayAdded(r, result, day, headers, params[..0]);
    while i < |params|
      invariant 0 <= i <= |params|
      invariant DayAdded(r, result, day, headers, params[..i])
    {
      var col, key := cols[i], Key(params[i]);
      assert col >= 0 ==> key in r by { KeyInSet(params, i); }
      AddDayStep(r, result, day, headers, params, i);
      if col >= 0 {
        r := r[key := r[key] + Cell(day, col)];
      }
      i := i + 1;
    }
    assert params[..i] == params;
  }

  lemma AddDayStep(before: map<string, real>, result: map<string, real>,
                   day: DayOut, headers: seq<string>, params: seq<Param>, i: nat)
    requires i < |params| && DayAdded(before, result, day, headers, params[..i])
    requires Column(headers, params[i]) >= 0 ==> Key(params[i]) in before
    ensures var col, key := Column(headers, params[i]), Key(params[i]);
            DayAdded(if col >= 0 then before[key := before[key] + Cell(day, col)] else before,
                     result, day, headers, params[..i + 1])
  {
    var col, key := Column(headers, params[i]), Key(params[i]);
    var r := if col >= 0 then before[key := before[key] + Cell(day, col)] else before;
    forall k | k in r
      ensures r[k] == result[k] + ParamSum(day, headers, params[..i + 1], k)
    {
      ParamSumStep(day, headers, params, i, k);
    }
  }

  lemma ParamSumStep(day: DayOut, headers: seq<string>, params: seq<Param>, i: nat, k: string)
    requires i < |params|
    ensures ParamSum(day, headers, params[..i + 1], k)
            == ParamSum(day, headers, params[..i], k)
               + (if Key(params[i]) == k && Column(headers, params[i]) >= 0 then Cell(day, Column(headers, params[i])) else 0.0)
  {
    assert params[..i + 1][..i] == params[..i];
  }

  /** `r` is `result` with what the in-window days of `days` add. */
  predicate DaysAdded(r: map<string, real>, result: map<string, real>, days: seq<DayOut>, headers: seq<string>,
                      params: seq<Param>, lo: Option<int>, hi: Option<int>) {
    r.Keys == result.Keys
    && forall k :: k in r ==> r[k] == result[k] + DaysSum(days, headers, params, lo, hi, k)
  }

  /** `r` holds, for every key, the sum over the in-window days of `weeks`. */
  predicate WeeksSummed(r: map<string, real>, weeks: seq<WeekAgg>, headers: seq<string>, params: seq<Param>,
                        lo: Option<int>, hi: Option<int>) {
    forall k :: k in r ==> r[k] == WeeksSum(weeks, headers, params, lo, hi, k)
  }

  /** The loop over the days of one week. */
  method AddWeek(result: map<string, real>, days: seq<DayOut>, headers: seq<string>, params: seq<Param>,
                 cols: seq<int>, lo: Option<int>, hi: Option<int>)
    returns (r: map<string, real>)
    requires result.Keys == KeySet(params) && cols == Columns(headers, params)
    ensures DaysAdded(r, result, days, headers, params, lo, hi)
  {
    r := result;
    var d := 0;
    while d < |days|
      invariant 0 <= d <= |days|
      invariant r.Keys == KeySet(params)
      invariant DaysAdded(r, result, days[..d], headers, params, lo, hi)
    {
      var before := r;
      r := AddDayInWindow(r, days[d], headers, params, cols, lo, hi);
      AddWeekStep(before, r, result, days, headers, params, lo, hi, d);
      d := d + 1;
    }
    assert days[..d] == days;
  }

  /** One day of the week: skipped outside the window, added to every key inside it. */
  method AddDayInWindow(result: map<string, real>, day: DayOut, headers: seq<string>, params: seq<Param>,
                        cols: seq<int>, lo: Option<int>, hi: Option<int>)
    returns (r: map<string, real>)
    requires result.Keys == KeySet(params) && cols == Columns(headers, params)
    ensures if InWindow(day.date, lo, hi) then DayAdded(r, result, day, headers, params) else r == result
  {
    r := result;
    if InWindow(day.date, lo, hi) {
      r := AddDay(r, day, headers, params, cols);
    }
  }

  lemma AddWeekStep(before: map<string, real>, r: map<string, real>, result: map<string, real>, days: seq<DayOut>,
                    headers: seq<string>, params: seq<Param>, lo: Option<int>, hi: Option<int>, d: nat)
    requires d < |days|
    requires DaysAdded(before, result, days[..d], headers, params, lo, hi)
    requires if InWindow(days[d].date, lo, hi) then DayAdded(r, before, days[d], headers, params) else r == before
    ensures r.Keys == before.Keys
    ensures DaysAdded(r, result, days[..d + 1], headers, params, lo, hi)
  {
    assert days[..d + 1][..d] == days[..d];
  }

  /** The loop over the weeks of the tab. */
  method AddWeeks(result: map<string, real>, weeks: seq<WeekAgg>, headers: seq<string>, params: seq<Param>,
                  cols: seq<int>, lo: Option<int>, hi: Option<int>)
    returns (r: map<string, real>)
    requires result.Keys == KeySet(params) && cols == Columns(headers, params)
    requires forall k :: k in result ==> result[k] == 0.0
    ensures r.Keys == result.Keys
    ensures WeeksSummed(r, weeks, headers, params, lo, hi)
  {
    r := result;
    var j := 0;
    while j < |weeks|
      invariant 0 <= j <= |weeks|
      invariant r.Keys == KeySet(params)
      invariant WeeksSummed(r, weeks[..j], headers, params, lo, hi)
    {
      var before := r;
      r := AddWeek(r, weeks[j].days, headers, params, cols, lo, hi);
      AddWeeksStep(before, r, weeks, headers, params, lo, hi, j);
      j := j + 1;
    }
    assert weeks[..j] == weeks;
  }

  lemma AddWeeksStep(before: map<string, real>, r: map<string, real>, weeks: seq<WeekAgg>, headers: seq<string>,
                     params: seq<Param>, lo: Option<int>, hi: Option<int>, j: nat)
    requires j < |weeks|
    requires WeeksSummed(before, weeks[..j], headers, params, lo, hi)
    requires DaysAdded(r, before, weeks[j].days, headers, params, lo, hi)
    ensures WeeksSummed(r, weeks[..j + 1], headers, params, lo, hi)
  {
    assert weeks[..j + 1][..j] == weeks[..j] && weeks[..j + 1][j] == weeks[j];
  }

  /** `result[key] = 0` for every parameter. */
  method ZeroKeys(params: seq<Param>) returns (result: map<string, real>)
    ensures result.Keys == KeySet(params)
    ensures forall k :: k in result ==> result[k] == 0.0
  {
    result := map[];
    var i := 0;
    while i < |params|
      invariant 0 <= i <= |params|
      invariant result.Keys == KeySet(params[..i])
      invariant forall k :: k in result ==> result[k] == 0.0
    {
      KeySetSnoc(params[..i], params[i]);
      assert params[..i + 1] == params[..i] + [params[i]];
      result := result[Key(params[i]) := 0.0];
      i := i + 1;
    }
    assert params[..i] == params;
  }

  /** `summarizePeriod`: zero every key, add every in-window day, then round every key to cents. */
  method SummarizePeriod(tab: TabAgg, start: string, end: string, params: seq<Param>)
    returns (result: map<string, real>)
    ensures result == Summary(tab, start, end, params)
  {
    var s, e := DateValue(start), DateValue(end);
    if Less(e, s) {
      s, e := e, s;
    }
    assert (s, e) == Window(start, end);
    var cols := Columns(tab.headersOut, params);
    var zero := ZeroKeys(params);
    var sums := AddWeeks(zero, tab.weeks, tab.headersOut, params, cols, s, e);
    result := RoundAllKeys(sums);
    SummaryOfSums(tab, start, end, params, s, e, sums, result);
  }

  lemma SummaryOfSums(tab: TabAgg, start: string, end: string, params: seq<Param>, lo: Option<int>, hi: Option<int>,
                      sums: map<string, real>, result: map<string, real>)
    requires (lo, hi) == Window(start, end)
    requires sums.Keys == KeySet(params)
    requires forall k :: k in sums ==> sums[k] == WeeksSum(tab.weeks, tab.headersOut, params, lo, hi, k)
    requires result.Keys == sums.Keys && forall k :: k in result ==> result[k] == Round2(sums[k])
    ensures result == Summary(tab, start, end, params)
  {
  }

  /** The rounding loop over `Object.keys(result)`. */
  method RoundAllKeys(m: map<string, real>) returns (r: map<string, real>)
    ensures r.Keys == m.Keys
    ensures forall k :: k in r ==> r[k] == Round2(m[k])
  {
    r := m;
    var keys := m.Keys;
    while keys != {}
      invariant keys <= m.Keys && r.Keys == m.Keys
      invariant forall k :: k in r ==> r[k] == if k in keys then m[k] else Round2(m[k])
      decreases |keys|
    {
      var k :| k in keys;
      r := r[k := Round2(r[k])];
      keys := keys - {k};
    }
  }

  /** `summarizePeriodTotals`: every parameter key, read from the summary with 0 as default. */
  method SummarizePeriodTotals(tab: TabAgg, start: string, end: string, params: seq<Param>)
    returns (out: map<string, real>)
    ensures out == Summary(tab, start, end, params)
  {
    var totals := SummarizePeriod(tab, start, end, params);
    out := map[];
    var i := 0;
    while i < |params|
      invariant 0 <= i <= |params|
      invariant out.Keys == KeySet(params[..i])
      invariant forall k :: k in out ==> k in totals && out[k] == totals[k]
    {
      var key := Key(params[i]);
      assert key in totals by { KeyInSet(params, i); }
      TotalsStep(out, totals, params, i);
      out := out[key := if key in totals then totals[key] else 0.0];
      i := i + 1;
    }
    assert params[..i] == params;
  }

  /** One parameter's total copied from the summary keeps the copy a restriction of the summary. */
  lemma TotalsStep(out: map<string, real>, totals: map<string, real>, params: seq<Param>, i: nat)
    requires i < |params| && Key(params[i]) in totals
    requires out.Keys == KeySet(params[..i])
    requires forall k :: k in out ==> k in totals && out[k] == totals[k]
    ensures var key := Key(params[i]);
            var next := out[key := totals[key]];
            next.Keys == KeySet(params[..i + 1]) && forall k :: k in next ==> k in totals && next[k] == totals[k]
  {
    KeySetSnoc(params[..i], params[i]);
    assert params[..i + 1] == params[..i] + [params[i]];
  }
  /** Swapping the bounds changes nothing when both are dates. */
  lemma SwappedBounds(tab: TabAgg, start: string, end: string, params: seq<Param>)
    requires DateValue(start).Some? && DateValue(end).Some?
    ensures Summary(tab, start, end, params) == Summary(tab, end, start, params)
  {
    assert Window(start, end) == Window(end, start);
  }

  /** With two dates as bounds, a dated day counts exactly when it lies between them, both ends included. */
  lemma WindowIsInclusive(date: string, start: string, end: string)
    requires DateValue(start).Some? && DateValue(end).Some? && DateValue(date).Some?
    ensures var s, e, d := DateValue(start).value, DateValue(end).value, DateValue(date).value;
            var w := Window(start, end);
            InWindow(date, w.0, w.1) <==> (s <= d <= e || e <= d <= s)
  {
  }

  /** A day whose date is not a date is never skipped, since every comparison with it is false. */
  lemma UndatedDayCounts(date: string, lo: Option<int>, hi: Option<int>)
    requires DateValue(date).None?
    ensures InWindow(date, lo, hi)
  {
  }

  /** Every requested key is in the summary, numeric parameters under their decimal text. */
  lemma SummaryKeys(tab: TabAgg, start: string, end: string, params: seq<Param>)
    ensures Summary(tab, start, end, params).Keys == KeySet(params)
    ensures forall i :: 0 <= i < |params| && params[i].Index? ==>
              IntToString(params[i].index) in Summary(tab, start, end, params)
  {
    forall i | 0 <= i < |params| && params[i].Index?
      ensures IntToString(params[i].index) in KeySet(params)
    {
      assert Key(params[i]) == IntToString(params[i].index);
    }
  }

  lemma {:induction false} ParamSumZero(day: DayOut, headers: seq<string>, params: seq<Param>, k: string)
    requires forall p :: p in params && Key(p) == k ==> Column(headers, p) < 0
    ensures ParamSum(day, headers, params, k) == 0.0
    decreases |params|
  {
    if params != [] {
      var init := params[..|params| - 1];
      assert forall p :: p in init ==> p in params;
      ParamSumZero(day, headers, init, k);
    }
  }

  lemma {:induction false} DaysSumZero(days: seq<DayOut>, headers: seq<string>, params: seq<Param>,
                                       lo: Option<int>, hi: Option<int>, k: string)
    requires forall p :: p in params && Key(p) == k ==> Column(headers, p) < 0
    ensures DaysSum(days, headers, params, lo, hi, k) == 0.0
    decreases |days|
  {
    if days != [] {
      DaysSumZero(days[..|days| - 1], headers, params, lo, hi, k);
      ParamSumZero(days[|days| - 1], headers, params, k);
    }
  }

  lemma {:induction false} WeeksSumZero(weeks: seq<WeekAgg>, headers: seq<string>, params: seq<Param>,
                                        lo: Option<int>, hi: Option<int>, k: string)
    requires forall p :: p in params && Key(p) == k ==> Column(headers, p) < 0
    ensures WeeksSum(weeks, headers, params, lo, hi, k) == 0.0
    decreases |weeks|
  {
    if weeks != [] {
      WeeksSumZero(weeks[..|weeks| - 1], headers, params, lo, hi, k);
      DaysSumZero(weeks[|weeks| - 1].days, headers, params, lo, hi, k);
    }
  }

  /** A header name that is not a column stays at 0 when no numeric parameter shares its key. */
  lemma UnknownHeaderIsZero(tab: TabAgg, start: string, end: string, params: seq<Param>, name: string)
    requires Name(name) in params && name !in tab.headersOut
    requires forall p :: p in params && Key(p) == name ==> p.Name?
    ensures Summary(tab, start, end, params)[name] == 0.0
  {
    var w := Window(start, end);
    WeeksSumZero(tab.weeks, tab.headersOut, params, w.0, w.1, name);
  }

  /** The days of all weeks, one week after the other. */
  function AllDaysOf(weeks: seq<WeekAgg>): (days: seq<DayOut>)
    decreases |weeks|
  {
    if weeks == [] then [] else AllDaysOf(weeks[..|weeks| - 1]) + weeks[|weeks| - 1].days
  }

  /** The reference total of one column: its cells summed over the in-window days. */
  function ColumnTotal(days: seq<DayOut>, col: int, lo: Option<int>, hi: Option<int>): real
    decreases |days|
  {
    if days == [] then 0.0
    else
      var day := days[|days| - 1];
      ColumnTotal(days[..|days| - 1], col, lo, hi) + (if InWindow(day.date, lo, hi) then Cell(day, col) else 0.0)
  }

  lemma {:induction false} ColumnTotalAppend(a: seq<DayOut>, b: seq<DayOut>, col: int, lo: Option<int>, hi: Option<int>)
    ensures ColumnTotal(a + b, col, lo, hi) == ColumnTotal(a, col, lo, hi) + ColumnTotal(b, col, lo, hi)
    decreases |b|
  {
    if b == [] {
      assert a + b == a;
    } else {
      assert (a + b)[..|a + b| - 1] == a + b[..|b| - 1];
      ColumnTotalAppend(a, b[..|b| - 1], col, lo, hi);
    }
  }

  /** Key `k` belongs to the parameter at `i` and to no other. */
  predicate OnlyKey(params: seq<Param>, i: int, k: string) {
    0 <= i < |params| && Key(params[i]) == k
    && forall j :: 0 <= j < |params| && Key(params[j]) == k ==> j == i
  }

  lemma {:induction false} ParamSumSingle(day: DayOut, headers: seq<string>, params: seq<Param>, i: nat, k: string)
    requires OnlyKey(params, i, k) && Column(headers, params[i]) >= 0
    ensures ParamSum(day, headers, params, k) == Cell(day, Column(headers, params[i]))
    decreases |params|
  {
    var init := params[..|params| - 1];
    if i == |params| - 1 {
      OnlyKeyLast(params, k);
      ParamSumZero(day, headers, init, k);
    } else {
      OnlyKeyInit(params, i, k);
      ParamSumSingle(day, headers, init, i, k);
    }
  }

  lemma OnlyKeyLast(params: seq<Param>, k: string)
    requires OnlyKey(params, |params| - 1, k)
    ensures forall p :: p in params[..|params| - 1] ==> Key(p) != k
  {
    var n := |params| - 1;
    forall p | p in params[..n] ensures Key(p) != k {
      var j :| 0 <= j < n && params[..n][j] == p;
      assert params[j] == p;
    }
  }

  lemma OnlyKeyInit(params: seq<Param>, i: nat, k: string)
    requires OnlyKey(params, i, k) && i < |params| - 1
    ensures OnlyKey(params[..|params| - 1], i, k) && params[..|params| - 1][i] == params[i]
  {
    var init := params[..|params| - 1];
    forall j | 0 <= j < |init| && Key(init[j]) == k ensures j == i {
      assert init[j] == params[j];
    }
  }

  lemma {:induction false} DaysSumSingle(days: seq<DayOut>, headers: seq<string>, params: seq<Param>, i: nat, k: string,
                                         lo: Option<int>, hi: Option<int>)
    requires OnlyKey(params, i, k) && Column(headers, params[i]) >= 0
    ensures DaysSum(days, headers, params, lo, hi, k) == ColumnTotal(days, Column(headers, params[i]), lo, hi)
    decreases |days|
  {
    if days != [] {
      DaysSumSingle(days[..|days| - 1], headers, params, i, k, lo, hi);
      ParamSumSingle(days[|days| - 1], headers, params, i, k);
    }
  }

  lemma {:induction false} WeeksSumSingle(weeks: seq<WeekAgg>, headers: seq<string>, params: seq<Param>, i: nat, k: string,
                                          lo: Option<int>, hi: Option<int>)
    requires OnlyKey(params, i, k) && Column(headers, params[i]) >= 0
    ensures WeeksSum(weeks, headers, params, lo, hi, k) == ColumnTotal(AllDaysOf(weeks), Column(headers, params[i]), lo, hi)
    decreases |weeks|
  {
    if weeks != [] {
      var n := |weeks| - 1;
      WeeksSumSingle(weeks[..n], headers, params, i, k, lo, hi);
      DaysSumSingle(weeks[n].days, headers, params, i, k, lo, hi);
      ColumnTotalAppend(AllDaysOf(weeks[..n]), weeks[n].days, Column(headers, params[i]), lo, hi);
    }
  }

  /**
   * A parameter whose key no other parameter shares gets, rounded to cents, the sum of its column over
   * the in-window days of all weeks.
   */
  lemma SummaryIsColumnTotal(tab: TabAgg, start: string, end: string, params: seq<Param>, i: nat)
    requires i < |params| && OnlyKey(params, i, Key(params[i])) && Column(tab.headersOut, params[i]) >= 0
    ensures var w := Window(start, end);
            Summary(tab, start, end, params)[Key(params[i])]
              == Round2(ColumnTotal(AllDaysOf(tab.weeks), Column(tab.headersOut, params[i]), w.0, w.1))
  {
    var w := Window(start, end);
    WeeksSumSingle(tab.weeks, tab.headersOut, params, i, Key(params[i]), w.0, w.1);
  }
}

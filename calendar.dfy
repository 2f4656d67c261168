/**
 * Civil dates in the proleptic Gregorian calendar, as JavaScript's `Date`
 * computes them: day numbers, the roll-over of out-of-range months and days
 * in `new Date(y, m, d)` / `Date.UTC(y, m, d)`, ISO-8601 week numbering and
 * the `YYYY-MM-DD` text form.
 */
module Calendar {
  import opened Wrappers
  import opened Text

  datatype Date = Date(year: int, month: int, day: int)

  predicate IsLeapYear(y: int) {
    y % 4 == 0 && (y % 100 != 0 || y % 400 == 0)
  }

  function DaysInMonth(y: int, m: int): (n: int)
    requires 1 <= m <= 12
    ensures 28 <= n <= 31
  {
    if m == 2 then (if IsLeapYear(y) then 29 else 28)
    else if m == 4 || m == 6 || m == 9 || m == 11 then 30
    else 31
  }

  function YearLength(y: int): int {
    if IsLeapYear(y) then 366 else 365
  }

  predicate ValidDate(d: Date) {
    1 <= d.month <= 12 && 1 <= d.day <= DaysInMonth(d.year, d.month)
  }

  /** Days from 0001-01-01 to the first day of year `y`. */
  function DaysBeforeYear(y: int): int {
    var p := y - 1;
    365 * p + p / 4 - p / 100 + p / 400
  }

  /** Days from the first of January of year `y` to the first day of month `m` (13 means the next year). */
  function DaysBeforeMonth(y: int, m: int): int
    requires 1 <= m <= 13
  {
    [0, 31, 59, 90, 120, 151, 181, 212, 243, 273, 304, 334, 365][m - 1]
      + (if m > 2 && IsLeapYear(y) then 1 else 0)
  }

  /** Number of days since 0001-01-01 (day 0, a Monday); JavaScript's time value divided by 86400000, shifted. */
  function DayNumber(d: Date): int
    requires 1 <= d.month <= 12
  {
    DaysBeforeYear(d.year) + DaysBeforeMonth(d.year, d.month) + d.day - 1
  }

  lemma DivisorSteps(p: int)
    ensures (p + 1) / 4 - p / 4 == (if (p + 1) % 4 == 0 then 1 else 0)
    ensures (p + 1) / 100 - p / 100 == (if (p + 1) % 100 == 0 then 1 else 0)
    ensures (p + 1) / 400 - p / 400 == (if (p + 1) % 400 == 0 then 1 else 0)
  {
  }

  lemma DivisorChain(y: int)
    ensures y % 400 == 0 ==> y % 100 == 0
    ensures y % 100 == 0 ==> y % 4 == 0
  {
    if y % 400 == 0 {
      var q := y / 400;
      assert y == 100 * (4 * q);
      HundredsMod(4 * q);
    }
    if y % 100 == 0 {
      var q := y / 100;
      assert y == 4 * (25 * q);
      FoursMod(25 * q);
    }
  }

  lemma HundredsMod(t: int)
    ensures (100 * t) % 100 == 0
  {
  }

  lemma FoursMod(t: int)
    ensures (4 * t) % 4 == 0
  {
  }

  lemma YearStep(y: int)
    ensures DaysBeforeYear(y + 1) == DaysBeforeYear(y) + YearLength(y)
  {
    DivisorSteps(y - 1);
    DivisorChain(y);
  }

  lemma MonthStep(y: int, m: int)
    requires 1 <= m <= 12
    ensures DaysBeforeMonth(y, m + 1) == DaysBeforeMonth(y, m) + DaysInMonth(y, m)
    ensures DaysBeforeMonth(y, 13) == YearLength(y)
  {
  }

  lemma {:induction false} MonthMonotone(y: int, m1: int, m2: int)
    requires 1 <= m1 < m2 <= 13
    ensures DaysBeforeMonth(y, m1) + DaysInMonth(y, m1) <= DaysBeforeMonth(y, m2)
    decreases m2 - m1
  {
    MonthStep(y, m1);
    if m1 + 1 < m2 {
      MonthMonotone(y, m1 + 1, m2);
    }
  }

  lemma {:induction false} YearMonotone(a: int, b: int)
    requires a < b
    ensures DaysBeforeYear(a) + YearLength(a) <= DaysBeforeYear(b)
    decreases b - a
  {
    YearStep(a);
    if a + 1 < b {
      YearMonotone(a + 1, b);
      YearStep(a + 1);
    }
  }

  /** A valid date lies inside its year's range of day numbers. */
  lemma DateInYear(d: Date)
    requires ValidDate(d)
    ensures DaysBeforeYear(d.year) <= DayNumber(d) < DaysBeforeYear(d.year + 1)
  {
    YearStep(d.year);
    MonthMonotone(d.year, d.month, 13);
  }

  /** Lexicographic order on (year, month, day). */
  predicate Before(a: Date, b: Date) {
    a.year < b.year
    || (a.year == b.year && a.month < b.month)
    || (a.year == b.year && a.month == b.month && a.day < b.day)
  }

  /** Day numbers order valid dates exactly as the calendar does; in particular they are injective. */
  lemma {:induction false} DayNumberOrder(a: Date, b: Date)
    requires ValidDate(a) && ValidDate(b)
    ensures Before(a, b) <==> DayNumber(a) < DayNumber(b)
    ensures a == b <==> DayNumber(a) == DayNumber(b)
  {
    DateInYear(a);
    DateInYear(b);
    if a.year < b.year {
      YearMonotone(a.year, b.year);
      YearStep(a.year);
    } else if b.year < a.year {
      YearMonotone(b.year, a.year);
      YearStep(b.year);
    } else if a.month < b.month {
      MonthMonotone(a.year, a.month, b.month);
    } else if b.month < a.month {
      MonthMonotone(a.year, b.month, a.month);
    }
  }

  /** The calendar day after `d`. */
  function NextDay(d: Date): (r: Date)
    requires ValidDate(d)
    ensures ValidDate(r) && DayNumber(r) == DayNumber(d) + 1
  {
    MonthStep(d.year, d.month);
    YearStep(d.year);
    if d.day < DaysInMonth(d.year, d.month) then Date(d.year, d.month, d.day + 1)
    else if d.month < 12 then Date(d.year, d.month + 1, 1)
    else Date(d.year + 1, 1, 1)
  }

  /** First day of the month after (y, m) starts `DaysInMonth(y, m)` days after the first of (y, m). */
  lemma MonthStartStep(y: int, m: int)
    requires 1 <= m <= 12
    ensures var next := if m < 12 then Date(y, m + 1, 1) else Date(y + 1, 1, 1);
            DayNumber(next) == DayNumber(Date(y, m, 1)) + DaysInMonth(y, m)
  {
    MonthStep(y, m);
    YearStep(y);
  }

  /** The date `k` days after the first of month (y, m), rolling over months and years in both directions. */
  function Normalize(y: int, m: int, k: int): (r: Date)
    requires 1 <= m <= 12
    ensures ValidDate(r)
    decreases if k < 0 then 31 - k else k
  {
    if k < 0 then
      var py := if m == 1 then y - 1 else y;
      var pm := if m == 1 then 12 else m - 1;
      Normalize(py, pm, k + DaysInMonth(py, pm))
    else if k >= DaysInMonth(y, m) then
      Normalize(if m < 12 then y else y + 1, if m < 12 then m + 1 else 1, k - DaysInMonth(y, m))
    else
      Date(y, m, k + 1)
  }

  /** `Normalize` lands exactly `k` days after the first of the month. */
  lemma {:induction false} NormalizeDayNumber(y: int, m: int, k: int)
    requires 1 <= m <= 12
    ensures DayNumber(Normalize(y, m, k)) == DayNumber(Date(y, m, 1)) + k
    decreases if k < 0 then 31 - k else k
  {
    if k < 0 {
      var py := if m == 1 then y - 1 else y;
      var pm := if m == 1 then 12 else m - 1;
      var back := k + DaysInMonth(py, pm);
      assert Normalize(y, m, k) == Normalize(py, pm, back);
      MonthStartStep(py, pm);
      NormalizeDayNumber(py, pm, back);
    } else if k >= DaysInMonth(y, m) {
      var ny := if m < 12 then y else y + 1;
      var nm := if m < 12 then m + 1 else 1;
      var ahead := k - DaysInMonth(y, m);
      assert Normalize(y, m, k) == Normalize(ny, nm, ahead);
      MonthStartStep(y, m);
      NormalizeDayNumber(ny, nm, ahead);
    }
  }

  /** The year JavaScript's `Date` constructor and `Date.UTC` use: 0..99 mean 1900..1999. */
  function JsYear(y: int): int {
    if 0 <= y <= 99 then 1900 + y else y
  }

  /**
   * `new Date(y, monthIndex, day)` (and `Date.UTC` with the same arguments):
   * the month index rolls over into years, then the day rolls over into months.
   */
  function MakeDate(y: int, monthIndex: int, day: int): (d: Date)
    ensures ValidDate(d)
  {
    Normalize(JsYear(y) + monthIndex / 12, monthIndex % 12 + 1, day - 1)
  }

  /** The date built lies `day - 1` days after the first of the (rolled-over) month. */
  lemma MakeDateDayNumber(y: int, monthIndex: int, day: int)
    ensures DayNumber(MakeDate(y, monthIndex, day))
            == DayNumber(Date(JsYear(y) + monthIndex / 12, monthIndex % 12 + 1, 1)) + day - 1
  {
    NormalizeDayNumber(JsYear(y) + monthIndex / 12, monthIndex % 12 + 1, day - 1);
  }

  /** A year from 0 to 99 builds the same date as that year 1900 years later. */
  lemma MakeDateTwoDigitYear(y: int, monthIndex: int, day: int)
    requires 0 <= y <= 99
    ensures MakeDate(y, monthIndex, day) == MakeDate(y + 1900, monthIndex, day)
  {
    assert JsYear(y) == y + 1900 == JsYear(y + 1900);
  }

  /** In-range arguments give the date they name (years of four digits from 100 on). */
  lemma MakeDateInRange(d: Date)
    requires ValidDate(d) && !(0 <= d.year <= 99)
    ensures MakeDate(d.year, d.month - 1, d.day) == d
  {
    var r := MakeDate(d.year, d.month - 1, d.day);
    assert (d.month - 1) / 12 == 0 && (d.month - 1) % 12 + 1 == d.month;
    assert JsYear(d.year) == d.year;
    MakeDateDayNumber(d.year, d.month - 1, d.day);
    assert DayNumber(r) == DayNumber(d);
    DayNumberOrder(r, d);
  }

  /** ISO weekday, Monday = 1 .. Sunday = 7 (`getUTCDay() || 7`). */
  function IsoWeekday(n: int): (w: int)
    ensures 1 <= w <= 7
  {
    n % 7 + 1
  }

  /** Day number of the Thursday of the Monday-to-Sunday week that holds day `n`. */
  function ThursdayOf(n: int): (t: int)
    ensures IsoWeekday(t) == 4 && n - 3 <= t <= n + 3 && t / 7 == n / 7
  {
    n + 4 - IsoWeekday(n)
  }

  datatype WeekKey = WeekKey(year: int, week: int)

  predicate WeekBefore(a: WeekKey, b: WeekKey) {
    a.year < b.year || (a.year == b.year && a.week < b.week)
  }

  /**
   * ISO-8601 week of a date (`isoWeekYear`): the week-numbering year is the
   * calendar year of the week's Thursday, and the week number counts the
   * seven-day blocks of that year up to the Thursday.
   */
  function IsoWeekOf(d: Date): (k: WeekKey)
    requires ValidDate(d)
    ensures var t := ThursdayOf(DayNumber(d));
            DaysBeforeYear(k.year) <= t < DaysBeforeYear(k.year + 1)
            && DaysBeforeYear(k.year) + 7 * (k.week - 1) <= t < DaysBeforeYear(k.year) + 7 * k.week
    ensures 1 <= k.week <= 53
  {
    var t := ThursdayOf(DayNumber(d));
    DateInYear(d);
    var y := IsoYearOf(t, d.year);
    WeekInYear(t, y);
    WeekFrom(t, y, DaysBeforeYear(y))
  }

  /** `Math.ceil((days from the year start + 1) / 7)`: the seven-day block after `start` holding day `t`. */
  function WeekFrom(t: int, y: int, start: int): WeekKey {
    WeekKey(y, (t - start) / 7 + 1)
  }

  /**
   * `isoWeekYear` as written: the date is rebuilt with `Date.UTC(year, month, day)` and the year start
   * with `Date.UTC(thursdayYear, 0, 1)`, and `Date.UTC` reads years 0 to 99 as 1900 to 1999. The week is
   * `Math.ceil((days from the year start + 1) / 7)`.
   */
  function IsoWeekYear(d: Date): (k: WeekKey)
    requires ValidDate(d)
    ensures k == WeekOfRebuilt(MakeDate(d.year, d.month - 1, d.day))
  {
    WeekOfRebuilt(MakeDate(d.year, d.month - 1, d.day))
  }

  /** The week `isoWeekYear` computes from the date `Date.UTC` rebuilt. */
  function WeekOfRebuilt(r: Date): (k: WeekKey)
    requires ValidDate(r)
    ensures var t := ThursdayOf(DayNumber(r));
            DaysBeforeYear(k.year) <= t < DaysBeforeYear(k.year + 1)
  {
    var t := ThursdayOf(DayNumber(r));
    DateInYear(r);
    var y := IsoYearOf(t, r.year);
    WeekFrom(t, y, DaysBeforeYear(JsYear(y)))
  }

  /** Away from the years `Date.UTC` remaps, `isoWeekYear` gives the ISO week. */
  lemma IsoWeekYearAgrees(d: Date)
    requires ValidDate(d) && !(-1 <= d.year <= 100)
    ensures IsoWeekYear(d) == IsoWeekOf(d)
  {
    MakeDateInRange(d);
    RebuiltWeekAgrees(d);
  }

  /** On a date whose year `Date.UTC` keeps, the week computed from it is the ISO week. */
  lemma RebuiltWeekAgrees(r: Date)
    requires ValidDate(r) && !(-1 <= r.year <= 100)
    ensures WeekOfRebuilt(r) == IsoWeekOf(r)
  {
    var t := ThursdayOf(DayNumber(r));
    DateInYear(r);
    IsoYearNear(t, r.year);
  }

  /** The year of a day near year `y` is `y` or a neighbour. */
  lemma IsoYearNear(t: int, y: int)
    requires DaysBeforeYear(y) - 3 <= t < DaysBeforeYear(y + 1) + 3
    ensures y - 1 <= IsoYearOf(t, y) <= y + 1
    ensures !(-1 <= y <= 100) ==> JsYear(IsoYearOf(t, y)) == IsoYearOf(t, y)
  {
  }

  /** `isoWeekYear` through its steps: the rebuilt date, its Thursday and the year that holds it. */
  lemma IsoWeekYearSteps(d: Date, r: Date, t: int, y: int)
    requires ValidDate(d) && ValidDate(r) && MakeDate(d.year, d.month - 1, d.day) == r
    requires t == ThursdayOf(DayNumber(r)) && DaysBeforeYear(r.year) - 3 <= t < DaysBeforeYear(r.year + 1) + 3
    requires y == IsoYearOf(t, r.year)
    ensures IsoWeekYear(d) == WeekFrom(t, y, DaysBeforeYear(JsYear(y)))
  {
  }

  /** 0099-12-31 is put in week 52 of 1999: its Thursday is taken from 1999-12-31. */
  lemma IsoWeekYearOfYear99()
    ensures IsoWeekYear(Date(99, 12, 31)) == WeekKey(1999, 52)
  {
    MakeDateTwoDigitYear(99, 11, 31);
    MakeDateInRange(Date(1999, 12, 31));
    assert DaysBeforeYear(1999) == 729754 && DaysBeforeYear(2000) == 730119;
    assert DayNumber(Date(1999, 12, 31)) == 730118;
    assert ThursdayOf(730118) == 730117;
    assert IsoYearOf(730117, 1999) == 1999;
    IsoWeekYearSteps(Date(99, 12, 31), Date(1999, 12, 31), 730117, 1999);
  }

  /**
   * 0100-01-01, a Friday, has its Thursday in year 99, whose start is taken as 1999-01-01: the week is
   * negative, where an ISO week is always from 1 to 53.
   */
  lemma IsoWeekYearOfYear100()
    ensures IsoWeekYear(Date(100, 1, 1)) == WeekKey(99, -99085)
  {
    assert DaysBeforeYear(1999) == 729754;
    assert IsoYearOf(36158, 100) == 99 by {
      assert DaysBeforeYear(99) == 35794 && DaysBeforeYear(100) == 36159;
    }
    assert ThursdayOf(DayNumber(Date(100, 1, 1))) == 36158 by {
      assert DaysBeforeYear(100) == 36159;
    }
    MakeDateInRange(Date(100, 1, 1));
    IsoWeekYearSteps(Date(100, 1, 1), Date(100, 1, 1), 36158, 99);
    assert WeekFrom(36158, 99, DaysBeforeYear(JsYear(99))) == WeekKey(99, -99085);
  }

  /** The year holding day `t`, for a `t` at most three days outside year `y`. */
  function IsoYearOf(t: int, y: int): (r: int)
    requires DaysBeforeYear(y) - 3 <= t < DaysBeforeYear(y + 1) + 3
    ensures DaysBeforeYear(r) <= t < DaysBeforeYear(r + 1)
  {
    YearStep(y - 1);
    YearStep(y);
    YearStep(y + 1);
    if t < DaysBeforeYear(y) then y - 1
    else if t >= DaysBeforeYear(y + 1) then y + 1
    else y
  }

  /** Inside a year, the seven-day block counted from the first of January holds the day, and there are at most 53. */
  lemma WeekInYear(t: int, y: int)
    requires DaysBeforeYear(y) <= t < DaysBeforeYear(y + 1)
    ensures var w := (t - DaysBeforeYear(y)) / 7 + 1;
            DaysBeforeYear(y) + 7 * (w - 1) <= t < DaysBeforeYear(y) + 7 * w && 1 <= w <= 53
  {
    YearStep(y);
  }

  /** A day number lies in exactly one year. */
  lemma YearOfDayUnique(t: int, y1: int, y2: int)
    requires DaysBeforeYear(y1) <= t < DaysBeforeYear(y1 + 1)
    requires DaysBeforeYear(y2) <= t < DaysBeforeYear(y2 + 1)
    ensures y1 == y2
  {
    if y1 < y2 {
      YearMonotone(y1, y2);
      YearStep(y1);
    } else if y2 < y1 {
      YearMonotone(y2, y1);
      YearStep(y2);
    }
  }

  /** 2024-12-31, a Tuesday, belongs to week 1 of 2025: its Thursday is 2025-01-02. */
  lemma LastDayOf2024()
    ensures IsoWeekOf(Date(2024, 12, 31)) == WeekKey(2025, 1)
  {
    assert DaysBeforeYear(2024) == 738885 && DaysBeforeYear(2025) == 739251;
    assert DayNumber(Date(2024, 12, 31)) == 739250;
    assert ThursdayOf(739250) == 739252;
    assert IsoYearOf(739252, 2024) == 2025;
  }

  /** 2023-01-01, a Sunday, belongs to week 52 of 2022: its Thursday is 2022-12-29. */
  lemma FirstDayOf2023()
    ensures IsoWeekOf(Date(2023, 1, 1)) == WeekKey(2022, 52)
  {
    assert DaysBeforeYear(2022) == 738155 && DaysBeforeYear(2023) == 738520;
    assert DayNumber(Date(2023, 1, 1)) == 738520;
    assert ThursdayOf(738520) == 738517;
    assert IsoYearOf(738517, 2023) == 2022;
  }

  /** Week 1 of every ISO year is the week holding the 4th of January. */
  lemma FourthOfJanuaryInWeekOne(y: int)
    ensures IsoWeekOf(Date(y, 1, 4)) == WeekKey(y, 1)
  {
    var k := IsoWeekOf(Date(y, 1, 4));
    YearStep(y);
    YearOfDayUnique(ThursdayOf(DayNumber(Date(y, 1, 4))), k.year, y);
  }

  /** All days of one Monday-to-Sunday week have the same ISO week. */
  lemma {:induction false} SameWeekSameKey(a: Date, b: Date)
    requires ValidDate(a) && ValidDate(b)
    requires DayNumber(a) / 7 == DayNumber(b) / 7
    ensures IsoWeekOf(a) == IsoWeekOf(b)
  {
    var ka, kb := IsoWeekOf(a), IsoWeekOf(b);
    assert ThursdayOf(DayNumber(a)) == ThursdayOf(DayNumber(b));
    YearOfDayUnique(ThursdayOf(DayNumber(a)), ka.year, kb.year);
  }

  /** ISO weeks never go backwards as dates advance. */
  lemma {:induction false} IsoWeekMonotone(a: Date, b: Date)
    requires ValidDate(a) && ValidDate(b)
    requires DayNumber(a) <= DayNumber(b)
    ensures IsoWeekOf(a) == IsoWeekOf(b) || WeekBefore(IsoWeekOf(a), IsoWeekOf(b))
  {
    var ka, kb := IsoWeekOf(a), IsoWeekOf(b);
    var na, nb := DayNumber(a), DayNumber(b);
    var ta, tb := ThursdayOf(na), ThursdayOf(nb);
    assert ta == 7 * (na / 7) + 3 && tb == 7 * (nb / 7) + 3;
    assert na / 7 <= nb / 7;
    assert ta <= tb;
    if kb.year < ka.year {
      YearMonotone(kb.year, ka.year);
      YearStep(kb.year);
    }
  }

  /**
   * `ymd(d)`: year as `String(y)`, month and day zero-padded to two digits. A month and day below 100
   * end the text as `-MM-DD`, two digits each that read back as the month and the day.
   */
  function Ymd(d: Date): (s: string)
    ensures 0 <= d.month < 100 && 0 <= d.day < 100 ==> EndsWithMonthDay(s, d.month, d.day)
  {
    Dashed(IntToString(d.year), if d.month < 0 then 0 else d.month, if d.day < 0 then 0 else d.day)
  }

  /** `s` ends in `-MM-DD`, two digits each that spell the month and the day. */
  predicate EndsWithMonthDay(s: string, month: nat, day: nat) {
    EndsWithTwoDigits(s, "-", day) && EndsWithTwoDigits(s[..|s| - 3], "-", month)
  }

  /** A year text followed by `-MM-DD`: a month and day below 100 end it in two digits each. */
  function Dashed(ys: string, month: nat, day: nat): (s: string)
    ensures month < 100 && day < 100 ==> EndsWithMonthDay(s, month, day)
  {
    var head := ys + "-" + PadStart2(NatToString(month));
    var text := head + "-" + PadStart2(NatToString(day));
    if month < 100 && day < 100 then
      PaddedTail(ys, "-", month);
      PaddedTail(head, "-", day);
      assert text[..|text| - 3] == head;
      text
    else text
  }

  /** Reads `Y-MM-DD` back: three dash-separated digit groups, the last two of exactly two digits. */
  function ParseYmd(s: string): Option<Date> {
    var parts := Split(s, '-');
    if |parts| == 3 && |parts[0]| >= 1 && AllDigits(parts[0])
       && |parts[1]| == 2 && AllDigits(parts[1]) && |parts[2]| == 2 && AllDigits(parts[2])
    then Some(Date(DigitsValue(parts[0]), DigitsValue(parts[1]), DigitsValue(parts[2])))
    else None
  }

  /** `ymd` loses nothing: the date is recovered from its text, so distinct dates get distinct keys. */
  lemma YmdRoundTrip(d: Date)
    requires ValidDate(d) && d.year >= 0
    ensures ParseYmd(Ymd(d)) == Some(d)
  {
    var ys, ms, ds := NatToString(d.year), PadStart2(NatToString(d.month)), PadStart2(NatToString(d.day));
    YmdDigits(d);
    NoSeparatorInDigits(ys, '-');
    NoSeparatorInDigits(ms, '-');
    NoSeparatorInDigits(ds, '-');
    SplitThree(ys, ms, ds, '-');
    ParseYmdOfParts(Ymd(d), ys, ms, ds);
  }

  lemma YmdDigits(d: Date)
    requires ValidDate(d) && d.year >= 0
    ensures var ys, ms, ds := NatToString(d.year), PadStart2(NatToString(d.month)), PadStart2(NatToString(d.day));
            && Ymd(d) == ys + "-" + ms + "-" + ds
            && AllDigits(ys) && |ys| >= 1 && DigitsValue(ys) == d.year
            && AllDigits(ms) && |ms| == 2 && DigitsValue(ms) == d.month
            && AllDigits(ds) && |ds| == 2 && DigitsValue(ds) == d.day
  {
    NatToStringRoundTrip(d.year);
    PadStart2Small(d.month);
    PadStart2Small(d.day);
    assert IntToString(d.year) == NatToString(d.year);
    assert (if d.month < 0 then 0 else d.month) == d.month;
    assert (if d.day < 0 then 0 else d.day) == d.day;
  }

  lemma ParseYmdOfParts(s: string, ys: string, ms: string, ds: string)
    requires Split(s, '-') == [ys, ms, ds]
    requires AllDigits(ys) && |ys| >= 1 && AllDigits(ms) && |ms| == 2 && AllDigits(ds) && |ds| == 2
    ensures ParseYmd(s) == Some(Date(DigitsValue(ys), DigitsValue(ms), DigitsValue(ds)))
  {
  }

  lemma YmdInjective(a: Date, b: Date)
    requires ValidDate(a) && ValidDate(b) && a.year >= 0 && b.year >= 0
    requires Ymd(a) == Ymd(b)
    ensures a == b
  {
    YmdRoundTrip(a);
    YmdRoundTrip(b);
  }

  /** True when `s` lists distinct valid dates in strictly increasing order. */
  predicate StrictlySorted(s: seq<Date>) {
    (forall i :: 0 <= i < |s| ==> ValidDate(s[i]))
    && forall i, j :: 0 <= i < j < |s| ==> DayNumber(s[i]) < DayNumber(s[j])
  }

  /** The earliest date of a non-empty set. */
  method EarliestDate(s: set<Date>) returns (m: Date)
    requires s != {} && forall d :: d in s ==> ValidDate(d)
    ensures m in s && ValidDate(m)
    ensures forall d :: d in s ==> ValidDate(d) && ValidDate(m) && DayNumber(m) <= DayNumber(d)
  {
    m :| m in s;
    var rest := s - {m};
    while rest != {}
      invariant rest <= s && m in s
      invariant forall d :: d in s && d !in rest ==> DayNumber(m) <= DayNumber(d)
      decreases rest
    {
      var x :| x in rest;
      if DayNumber(x) < DayNumber(m) {
        m := x;
      }
      rest := rest - {x};
    }
  }

  /** The dates of a set in ascending order, as `Array.prototype.sort` by time value leaves them. */
  method SortDates(s: set<Date>) returns (r: seq<Date>)
    requires forall d :: d in s ==> ValidDate(d)
    ensures StrictlySorted(r)
    ensures forall d :: d in r <==> d in s
  {
    r := [];
    var rest := s;
    while rest != {}
      invariant rest <= s
      invariant StrictlySorted(r)
      invariant forall d :: d in s <==> d in r || d in rest
      invariant forall i, d :: 0 <= i < |r| && d in rest && ValidDate(r[i]) && ValidDate(d) ==> DayNumber(r[i]) < DayNumber(d)
      decreases rest
    {
      var m := EarliestDate(rest);
      AppendEarliest(r, m, rest);
      rest := rest - {m};
      r := r + [m];
    }
  }

  /** Appending the earliest remaining date keeps the output sorted and below what remains. */
  lemma AppendEarliest(r: seq<Date>, m: Date, rest: set<Date>)
    requires StrictlySorted(r) && m in rest && ValidDate(m)
    requires forall d :: d in rest ==> ValidDate(d) && DayNumber(m) <= DayNumber(d)
    requires forall i, d :: 0 <= i < |r| && d in rest && ValidDate(r[i]) && ValidDate(d) ==> DayNumber(r[i]) < DayNumber(d)
    ensures StrictlySorted(r + [m])
    ensures forall i, d :: 0 <= i < |r + [m]| && d in rest - {m} && ValidDate((r + [m])[i]) && ValidDate(d)
                           ==> DayNumber((r + [m])[i]) < DayNumber(d)
  {
    forall d | d in rest - {m} ensures DayNumber(m) < DayNumber(d) {
      DayNumberOrder(m, d);
    }
  }
}

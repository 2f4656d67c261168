/**
 * The first half of the outreach aggregation: each sheet tab's value range is
 * projected onto the columns the board uses, the `DD.MM.YYYY` date cells are
 * read, and the numeric cells of every row are added into one entry per
 * calendar day.
 */
module OutreachIngest {
  import opened Wrappers
  import opened Text
  import opened Calendar
  import opened Numbers

  /** `parseDateDDMMYYYYdots`: one or two digits, a point, one or two digits, a point, four digits. */
  predicate IsDotsParts(parts: seq<string>) {
    |parts| == 3
    && 1 <= |parts[0]| <= 2 && AllDigits(parts[0])
    && 1 <= |parts[1]| <= 2 && AllDigits(parts[1])
    && |parts[2]| == 4 && AllDigits(parts[2])
  }

  predicate IsDotsDate(s: string) {
    IsDotsParts(Split(s, '.'))
  }

  /** `new Date(yyyy, mm - 1, dd)` for the three digit groups. */
  function DateOfDigits(dd: string, mm: string, yyyy: string): (d: Date)
    requires AllDigits(dd) && AllDigits(mm) && AllDigits(yyyy)
    ensures ValidDate(d)
  {
    MakeDate(DigitsValue(yyyy), DigitsValue(mm) - 1, DigitsValue(dd))
  }

  /**
   * The date a `DD.MM.YYYY` cell names, as `new Date(yyyy, mm - 1, dd)`
   * builds it: out-of-range days and months roll over instead of being
   * rejected, so "32.01.2025" is the first of February.
   */
  function ParseDateDots(s: string): (r: Option<Date>)
    ensures r.Some? <==> IsDotsDate(s)
    ensures r.Some? ==> ValidDate(r.value)
  {
    var parts := Split(s, '.');
    if IsDotsParts(parts) then Some(DateOfDigits(parts[0], parts[1], parts[2])) else None
  }

  /** A cell made of day, month and year digit groups is read as `new Date(year, month - 1, day)`. */
  lemma ParseDateDotsParts(dd: string, mm: string, yyyy: string)
    requires 1 <= |dd| <= 2 && AllDigits(dd) && 1 <= |mm| <= 2 && AllDigits(mm)
    requires |yyyy| == 4 && AllDigits(yyyy)
    ensures ParseDateDots(dd + "." + mm + "." + yyyy) == Some(DateOfDigits(dd, mm, yyyy))
  {
    NoSeparatorInDigits(dd, '.');
    NoSeparatorInDigits(mm, '.');
    NoSeparatorInDigits(yyyy, '.');
    SplitThree(dd, mm, yyyy, '.');
    DotsPartsShape(dd, mm, yyyy);
  }

  lemma DotsPartsShape(dd: string, mm: string, yyyy: string)
    requires 1 <= |dd| <= 2 && AllDigits(dd) && 1 <= |mm| <= 2 && AllDigits(mm)
    requires |yyyy| == 4 && AllDigits(yyyy)
    ensures var parts := [dd, mm, yyyy];
            IsDotsParts(parts) && parts[0] == dd && parts[1] == mm && parts[2] == yyyy
  {
  }

  /** The two-digit day and month form of a date from year 1000 on reads back as that date. */
  lemma ParseDateDotsRoundTrip(d: Date)
    requires ValidDate(d) && 1000 <= d.year <= 9999
    ensures ParseDateDots(PadStart2(NatToString(d.day)) + "." + PadStart2(NatToString(d.month)) + "." + NatToString(d.year))
            == Some(d)
  {
    var dd, mm, yyyy := PadStart2(NatToString(d.day)), PadStart2(NatToString(d.month)), NatToString(d.year);
    PadStart2Small(d.day);
    PadStart2Small(d.month);
    NatLength4(d.year);
    ParseDateDotsParts(dd, mm, yyyy);
    DateOfOwnDigits(d);
  }

  lemma DateOfOwnDigits(d: Date)
    requires ValidDate(d) && 1000 <= d.year
    ensures AllDigits(PadStart2(NatToString(d.day))) && AllDigits(PadStart2(NatToString(d.month)))
    ensures DateOfDigits(PadStart2(NatToString(d.day)), PadStart2(NatToString(d.month)), NatToString(d.year)) == d
  {
    PadStart2Small(d.day);
    PadStart2Small(d.month);
    NatToStringRoundTrip(d.year);
    DigitsNamingDate(PadStart2(NatToString(d.day)), PadStart2(NatToString(d.month)), NatToString(d.year), d);
  }

  /** Digit groups whose values are a date's own day, month and year build that date. */
  lemma DigitsNamingDate(dd: string, mm: string, yyyy: string, d: Date)
    requires AllDigits(dd) && AllDigits(mm) && AllDigits(yyyy)
    requires DigitsValue(dd) == d.day && DigitsValue(mm) == d.month && DigitsValue(yyyy) == d.year
    requires ValidDate(d) && 1000 <= d.year
    ensures DateOfDigits(dd, mm, yyyy) == d
  {
    MakeDateInRange(d);
  }

  lemma {:induction false} NatLength4(n: nat)
    requires 1000 <= n <= 9999
    ensures |NatToString(n)| == 4
  {
    assert NatToString(n) == NatToString(n / 10) + [DigitChar(n % 10)];
    assert NatToString(n / 10) == NatToString(n / 100) + [DigitChar(n / 10 % 10)];
    assert NatToString(n / 100) == NatToString(n / 1000) + [DigitChar(n / 100 % 10)];
  }

  /** The day 32 of January rolls over to the first of February: "32.01.2025" names 2025-02-01. */
  lemma DayRollOverExample()
    ensures MakeDate(2025, 0, 32) == Date(2025, 2, 1)
  {
    MakeDateDayNumber(2025, 0, 32);
    DayNumberOrder(MakeDate(2025, 0, 32), Date(2025, 2, 1));
  }

  /** Month 13 rolls over to January of the next year: "01.13.2025" names 2026-01-01. */
  lemma MonthRollOverExample()
    ensures MakeDate(2025, 12, 1) == Date(2026, 1, 1)
  {
    MakeDateDayNumber(2025, 12, 1);
    DayNumberOrder(MakeDate(2025, 12, 1), Date(2026, 1, 1));
  }

  /** `r[i] ?? ''`: a missing cell reads as the empty string. */
  function Cell(row: seq<string>, i: nat): string {
    if i < |row| then row[i] else ""
  }

  /** `keep.map(i => r[i] ?? '')`. */
  function ProjectRow(row: seq<string>, keep: seq<nat>): (r: seq<string>)
    ensures |r| == |keep|
    ensures forall j :: 0 <= j < |keep| ==> r[j] == Cell(row, keep[j])
  {
    if keep == [] then [] else [Cell(row, keep[0])] + ProjectRow(row, keep[1..])
  }

  /** The projection of a value range: rows cut to the kept columns, or left as they are when no columns are listed. */
  function Project(values: seq<seq<string>>, keep: seq<nat>): (r: seq<seq<string>>)
    ensures |r| == |values|
    ensures keep == [] ==> r == values
    ensures keep != [] ==> forall i :: 0 <= i < |r| ==> r[i] == ProjectRow(values[i], keep)
  {
    if keep == [] then values
    else if values == [] then []
    else [ProjectRow(values[0], keep)] + Project(values[1..], keep)
  }

  /** The columns 0, 1, ..., n - 1 in order. */
  function Columns(n: nat): (c: seq<nat>)
    ensures |c| == n && forall j :: 0 <= j < n ==> c[j] == j
  {
    if n == 0 then [] else Columns(n - 1) + [n - 1]
  }

  /** Projecting a second time onto all columns of the first projection changes nothing. */
  lemma ProjectIdempotent(values: seq<seq<string>>, keep: seq<nat>)
    requires keep != []
    ensures Project(Project(values, keep), Columns(|keep|)) == Project(values, keep)
  {
    var p := Project(values, keep);
    var q := Project(p, Columns(|keep|));
    forall i | 0 <= i < |p| ensures q[i] == p[i] {
      assert |q[i]| == |p[i]|;
    }
  }

  /** `TAB_COLUMN_MAP`: the zero-based columns A..K kept for each tab. */
  const TabColumnMap: map<string, seq<nat>> := map[
    "Content" := [0, 1, 2, 3, 4, 5, 6, 7, 8, 9],
    "Outreach" := [0, 1, 2, 3, 4, 5, 6, 7, 10],
    "Termine" := [0]
  ]

  /** One value range of the batch read: its A1 range text and its rows, either of which may be missing. */
  datatype ValueRange = ValueRange(range: Option<string>, values: Option<seq<seq<string>>>)

  /** The projected form of one tab: its range, its header row and its data rows. */
  datatype Projected = Projected(range: string, headers: seq<string>, rows: seq<seq<string>>)

  /** `fullRange.split('!')[0] || 'Unknown'`. */
  function TabName(fullRange: string): (tab: string)
    ensures tab != ""
    ensures '!' !in tab
  {
    var first := Split(fullRange, '!')[0];
    if first == "" then "Unknown" else first
  }

  /** The projected record of one value range. */
  function ProjectOne(vr: ValueRange): (p: Projected)
    ensures var keep := if TabName(vr.range.GetOr("")) in TabColumnMap then TabColumnMap[TabName(vr.range.GetOr(""))] else [];
            var proj := Project(vr.values.GetOr([]), keep);
            p.range == vr.range.GetOr("")
            && (proj == [] ==> p.headers == [] && p.rows == [])
            && (proj != [] ==> [p.headers] + p.rows == proj)
  {
    var fullRange := vr.range.GetOr("");
    var tab := TabName(fullRange);
    var keep := if tab in TabColumnMap then TabColumnMap[tab] else [];
    var proj := Project(vr.values.GetOr([]), keep);
    Projected(fullRange, if |proj| > 0 then proj[0] else [], if |proj| > 1 then proj[1..] else [])
  }

  /** The tab records after reading `vrs` in order: a later range of the same tab replaces an earlier one. */
  function ProjectedOf(vrs: seq<ValueRange>): map<string, Projected> {
    if vrs == [] then map[]
    else ProjectedOf(vrs[..|vrs| - 1])[TabName(vrs[|vrs| - 1].range.GetOr("")) := ProjectOne(vrs[|vrs| - 1])]
  }

  /** The read-and-project loop of `fetchFromSheets`. */
  method ProjectAll(vrs: seq<ValueRange>) returns (projected: map<string, Projected>)
    ensures projected == ProjectedOf(vrs)
  {
    projected := map[];
    var k := 0;
    while k < |vrs|
      invariant 0 <= k <= |vrs|
      invariant projected == ProjectedOf(vrs[..k])
    {
      var fullRange := vrs[k].range.GetOr("");
      var tab := TabName(fullRange);
      assert ProjectedOf(vrs[..k + 1]) == ProjectedOf(vrs[..k])[tab := ProjectOne(vrs[k])] by {
        assert vrs[..k + 1][..k] == vrs[..k];
      }
      projected := projected[tab := ProjectOne(vrs[k])];
      k := k + 1;
    }
    assert vrs[..k] == vrs;
  }

  /** Every range read leaves a record for the tab it names. */
  lemma {:induction false} EveryTabProjected(vrs: seq<ValueRange>, i: nat)
    requires i < |vrs|
    ensures TabName(vrs[i].range.GetOr("")) in ProjectedOf(vrs)
  {
    if i < |vrs| - 1 {
      EveryTabProjected(vrs[..|vrs| - 1], i);
      assert vrs[..|vrs| - 1][i] == vrs[i];
    }
  }

  /** Each tab keeps the record of the last range that names it. */
  lemma {:induction false} ProjectedLastWins(vrs: seq<ValueRange>, i: nat)
    requires i < |vrs|
    requires forall j :: i < j < |vrs| ==> TabName(vrs[j].range.GetOr("")) != TabName(vrs[i].range.GetOr(""))
    ensures TabName(vrs[i].range.GetOr("")) in ProjectedOf(vrs)
    ensures ProjectedOf(vrs)[TabName(vrs[i].range.GetOr(""))] == ProjectOne(vrs[i])
  {
    if i < |vrs| - 1 {
      ProjectedLastWins(vrs[..|vrs| - 1], i);
    }
  }

  /** Which of the two summed tabs a row comes from. */
  datatype Side = ContentSide | OutreachSide

  /** Per-day sums: the Content columns and the Outreach columns, without the date column. */
  datatype DayPair = DayPair(contentNums: seq<real>, outreachNums: seq<real>) {
    function Nums(side: Side): seq<real> {
      if side == ContentSide then contentNums else outreachNums
    }
    function With(side: Side, nums: seq<real>): DayPair {
      if side == ContentSide then DayPair(nums, outreachNums) else DayPair(contentNums, nums)
    }
  }

  /** The date of a row, read from its first cell. */
  function RowDate(row: seq<string>): Option<Date> {
    ParseDateDots(Cell(row, 0))
  }

  /** Sum of column `i` (cell `i + 1`) over the rows dated `d`. */
  function DayTotal(rows: seq<seq<string>>, d: Date, i: nat): real {
    if rows == [] then 0.0
    else
      var last := rows[|rows| - 1];
      DayTotal(rows[..|rows| - 1], d, i) + (if RowDate(last) == Some(d) then ToNum(Cell(last, i + 1)) else 0.0)
  }

  /** The dates the rows name. */
  function RowDates(rows: seq<seq<string>>): set<Date> {
    if rows == [] then {}
    else
      var last := RowDate(rows[|rows| - 1]);
      RowDates(rows[..|rows| - 1]) + (if last.Some? then {last.value} else {})
  }

  /** A date is among the row dates exactly when some row is dated so. */
  lemma RowDatesMembers(rows: seq<seq<string>>, d: Date)
    ensures d in RowDates(rows) <==> exists r :: r in rows && RowDate(r) == Some(d)
  {
    if d in RowDates(rows) {
      var k := RowDatesSound(rows, d);
      assert rows[k] in rows;
    }
    if exists r :: r in rows && RowDate(r) == Some(d) {
      var r :| r in rows && RowDate(r) == Some(d);
      var k :| 0 <= k < |rows| && rows[k] == r;
      RowDatesComplete(rows, k, d);
    }
  }

  /** Every row date comes from some row. */
  lemma {:induction false} RowDatesSound(rows: seq<seq<string>>, d: Date) returns (k: nat)
    requires d in RowDates(rows)
    ensures k < |rows| && RowDate(rows[k]) == Some(d)
  {
    var n := |rows|;
    if RowDate(rows[n - 1]) == Some(d) {
      k := n - 1;
    } else {
      k := RowDatesSound(rows[..n - 1], d);
    }
  }

  /** Every dated row contributes its date. */
  lemma {:induction false} RowDatesComplete(rows: seq<seq<string>>, k: nat, d: Date)
    requires k < |rows| && RowDate(rows[k]) == Some(d)
    ensures d in RowDates(rows)
  {
    var n := |rows|;
    if k < n - 1 {
      assert rows[..n - 1][k] == rows[k];
      RowDatesComplete(rows[..n - 1], k, d);
    }
  }

  function Zeros(n: nat): (z: seq<real>)
    ensures |z| == n && forall i :: 0 <= i < n ==> z[i] == 0.0
  {
    if n == 0 then [] else Zeros(n - 1) + [0.0]
  }

  /** The per-day map holds, for every day, both sum arrays at their widths. */
  predicate WellShaped(byDate: map<Date, DayPair>, nC: nat, nO: nat) {
    forall d :: d in byDate ==> |byDate[d].contentNums| == nC && |byDate[d].outreachNums| == nO
  }

  /** The numbers in cells 1 .. n of a row. */
  function CellValues(row: seq<string>, n: nat): (v: seq<real>)
    ensures |v| == n
  {
    seq(n, j requires 0 <= j < n => ToNum(Cell(row, j + 1)))
  }

  /** `p.nums[i] += toNum(r[i + 1])` for every column of one side. */
  method AddRow(nums: seq<real>, row: seq<string>) returns (r: seq<real>)
    ensures |r| == |nums|
    ensures forall i :: 0 <= i < |nums| ==> r[i] == nums[i] + ToNum(Cell(row, i + 1))
  {
    var vals := CellValues(row, |nums|);
    r := nums;
    var i := 0;
    while i < |nums|
      invariant 0 <= i <= |nums| && |r| == |nums|
      invariant forall j :: 0 <= j < i ==> r[j] == nums[j] + vals[j]
      invariant forall j :: i <= j < |nums| ==> r[j] == nums[j]
    {
      r := r[i := r[i] + vals[i]];
      i := i + 1;
    }
  }

  /** The sum a day starts from on one side: its earlier value, or 0 for a new day. */
  function Base(byDate0: map<Date, DayPair>, d: Date, side: Side, i: nat): real {
    if d in byDate0 && i < |byDate0[d].Nums(side)| then byDate0[d].Nums(side)[i] else 0.0
  }

  /** Every day's sums on `side` are its starting sums plus the totals of `rows` for that day. */
  predicate SideSums(byDate: map<Date, DayPair>, byDate0: map<Date, DayPair>, side: Side, rows: seq<seq<string>>) {
    forall d, i :: d in byDate && 0 <= i < |byDate[d].Nums(side)| ==>
      byDate[d].Nums(side)[i] == Base(byDate0, d, side, i) + DayTotal(rows, d, i)
  }

  lemma DayTotalStep(rows: seq<seq<string>>, row: seq<string>, d: Date, i: nat)
    ensures DayTotal(rows + [row], d, i)
            == DayTotal(rows, d, i) + (if RowDate(row) == Some(d) then ToNum(Cell(row, i + 1)) else 0.0)
  {
    assert (rows + [row])[..|rows|] == rows;
  }

  /** A row without a date leaves every sum as it was. */
  lemma SideSumsSkip(byDate: map<Date, DayPair>, byDate0: map<Date, DayPair>, side: Side, rows: seq<seq<string>>, row: seq<string>)
    requires SideSums(byDate, byDate0, side, rows) && RowDate(row).None?
    ensures SideSums(byDate, byDate0, side, rows + [row])
  {
    forall d, i | d in byDate && 0 <= i < |byDate[d].Nums(side)|
      ensures byDate[d].Nums(side)[i] == Base(byDate0, d, side, i) + DayTotal(rows + [row], d, i)
    {
      DayTotalStep(rows, row, d, i);
    }
  }

  /** A dated row adds its cells into its day, which starts from zero sums when it is new. */
  lemma SideSumsAdd(before: map<Date, DayPair>, after: map<Date, DayPair>, byDate0: map<Date, DayPair>,
                    side: Side, rows: seq<seq<string>>, row: seq<string>, d: Date, start: DayPair, added: seq<real>)
    requires SideSums(before, byDate0, side, rows) && RowDate(row) == Some(d)
    requires d in before ==> start == before[d]
    requires d !in before ==> d !in byDate0 && d !in RowDates(rows) && forall i :: 0 <= i < |start.Nums(side)| ==> start.Nums(side)[i] == 0.0
    requires |added| == |start.Nums(side)|
    requires forall i :: 0 <= i < |added| ==> added[i] == start.Nums(side)[i] + ToNum(Cell(row, i + 1))
    requires after == before[d := start.With(side, added)]
    ensures SideSums(after, byDate0, side, rows + [row])
  {
    forall e, i | e in after && 0 <= i < |after[e].Nums(side)|
      ensures after[e].Nums(side)[i] == Base(byDate0, e, side, i) + DayTotal(rows + [row], e, i)
    {
      DayTotalStep(rows, row, e, i);
      if e == d && d !in before {
        NoRowsNoTotal(rows, d, i);
      }
    }
  }

  /** What the ingest loop keeps true after reading `rows` into `byDate`, which started as `byDate0`. */
  predicate IngestInv(byDate: map<Date, DayPair>, byDate0: map<Date, DayPair>, side: Side, nC: nat, nO: nat, rows: seq<seq<string>>) {
    && WellShaped(byDate, nC, nO)
    && byDate.Keys == byDate0.Keys + RowDates(rows)
    && (forall d :: d in byDate ==> ValidDate(d) || d in byDate0)
    && SideSums(byDate, byDate0, side, rows)
    && (forall d :: d in byDate0 ==> byDate[d].Nums(Other(side)) == byDate0[d].Nums(Other(side)))
    && (forall d :: d in byDate && d !in byDate0 ==> byDate[d].Nums(Other(side)) == Zeros(if side == ContentSide then nO else nC))
  }

  /** The body of the ingest loop for one row. */
  method IngestRow(byDate: map<Date, DayPair>, ghost byDate0: map<Date, DayPair>, ghost done: seq<seq<string>>,
                   row: seq<string>, side: Side, nC: nat, nO: nat)
    returns (next: map<Date, DayPair>)
    requires IngestInv(byDate, byDate0, side, nC, nO, done)
    ensures IngestInv(next, byDate0, side, nC, nO, done + [row])
  {
    var parsed := RowDate(row);
    if parsed.Some? {
      var d := parsed.value;
      var p := if d in byDate then byDate[d] else DayPair(Zeros(nC), Zeros(nO));
      var added := AddRow(p.Nums(side), row);
      next := byDate[d := p.With(side, added)];
      IngestInvAdd(byDate, next, byDate0, side, nC, nO, done, row, d, p, added);
    } else {
      next := byDate;
      IngestInvSkip(byDate, byDate0, side, nC, nO, done, row);
    }
  }

  lemma IngestInvSkip(byDate: map<Date, DayPair>, byDate0: map<Date, DayPair>, side: Side, nC: nat, nO: nat,
                      done: seq<seq<string>>, row: seq<string>)
    requires IngestInv(byDate, byDate0, side, nC, nO, done) && RowDate(row).None?
    ensures IngestInv(byDate, byDate0, side, nC, nO, done + [row])
  {
    RowDatesStep(done, row);
    SideSumsSkip(byDate, byDate0, side, done, row);
  }

  lemma IngestInvAdd(byDate: map<Date, DayPair>, next: map<Date, DayPair>, byDate0: map<Date, DayPair>,
                     side: Side, nC: nat, nO: nat, done: seq<seq<string>>, row: seq<string>,
                     d: Date, p: DayPair, added: seq<real>)
    requires IngestInv(byDate, byDate0, side, nC, nO, done) && RowDate(row) == Some(d)
    requires p == if d in byDate then byDate[d] else DayPair(Zeros(nC), Zeros(nO))
    requires |added| == |p.Nums(side)|
    requires forall i :: 0 <= i < |added| ==> added[i] == p.Nums(side)[i] + ToNum(Cell(row, i + 1))
    requires next == byDate[d := p.With(side, added)]
    ensures IngestInv(next, byDate0, side, nC, nO, done + [row])
  {
    RowDatesStep(done, row);
    IngestAddShape(byDate, next, byDate0, side, nC, nO, done, d, p, added);
    SideSumsAdd(byDate, next, byDate0, side, done, row, d, p, added);
  }

  /** Adding into one day keeps the widths, the key set and the other side of every day. */
  lemma IngestAddShape(byDate: map<Date, DayPair>, next: map<Date, DayPair>, byDate0: map<Date, DayPair>,
                       side: Side, nC: nat, nO: nat, done: seq<seq<string>>, d: Date, p: DayPair, added: seq<real>)
    requires IngestInv(byDate, byDate0, side, nC, nO, done) && ValidDate(d)
    requires p == if d in byDate then byDate[d] else DayPair(Zeros(nC), Zeros(nO))
    requires |added| == |p.Nums(side)|
    requires next == byDate[d := p.With(side, added)]
    ensures WellShaped(next, nC, nO)
    ensures next.Keys == byDate.Keys + {d}
    ensures forall e :: e in next ==> ValidDate(e) || e in byDate0
    ensures forall e :: e in byDate0 ==> next[e].Nums(Other(side)) == byDate0[e].Nums(Other(side))
    ensures forall e :: e in next && e !in byDate0 ==> next[e].Nums(Other(side)) == Zeros(if side == ContentSide then nO else nC)
  {
  }

  /**
   * One ingest loop of `fetchFromSheets`: every row whose date parses adds
   * its cells into that day's sums for `side`, creating the day with zero
   * sums first when it is new; other rows are skipped.
   */
  method Ingest(rows: seq<seq<string>>, side: Side, nC: nat, nO: nat, byDate0: map<Date, DayPair>)
    returns (byDate: map<Date, DayPair>)
    requires WellShaped(byDate0, nC, nO)
    ensures IngestInv(byDate, byDate0, side, nC, nO, rows)
  {
    byDate := byDate0;
    var k := 0;
    assert RowDates(rows[..0]) == {};
    while k < |rows|
      invariant 0 <= k <= |rows|
      invariant IngestInv(byDate, byDate0, side, nC, nO, rows[..k])
    {
      assert rows[..k + 1] == rows[..k] + [rows[k]];
      byDate := IngestRow(byDate, byDate0, rows[..k], rows[k], side, nC, nO);
      k := k + 1;
    }
    assert rows[..k] == rows;
  }

  function Other(side: Side): Side {
    if side == ContentSide then OutreachSide else ContentSide
  }

  lemma RowDatesStep(rows: seq<seq<string>>, row: seq<string>)
    ensures RowDates(rows + [row]) == RowDates(rows) + (if RowDate(row).Some? then {RowDate(row).value} else {})
  {
    assert (rows + [row])[..|rows|] == rows;
  }

  /**
   * The day map `ingestBoth` builds: one entry per date of either tab, each holding, per column, the
   * total of that tab's rows of the day.
   */
  ghost predicate Ingested(byDate: map<Date, DayPair>, contentRows: seq<seq<string>>, outreachRows: seq<seq<string>>,
                           nC: nat, nO: nat) {
    && WellShaped(byDate, nC, nO)
    && byDate.Keys == RowDates(contentRows) + RowDates(outreachRows)
    && (forall d :: d in byDate ==> ValidDate(d))
    && (forall d, i :: d in byDate && 0 <= i < nC ==> byDate[d].contentNums[i] == DayTotal(contentRows, d, i))
    && (forall d, i :: d in byDate && 0 <= i < nO ==> byDate[d].outreachNums[i] == DayTotal(outreachRows, d, i))
  }

  /** Both ingest loops, starting from an empty map: the per-day sums of the two tabs. */
  method IngestBoth(contentRows: seq<seq<string>>, outreachRows: seq<seq<string>>, nC: nat, nO: nat)
    returns (byDate: map<Date, DayPair>)
    ensures Ingested(byDate, contentRows, outreachRows, nC, nO)
  {
    var afterContent := Ingest(contentRows, ContentSide, nC, nO, map[]);
    byDate := Ingest(outreachRows, OutreachSide, nC, nO, afterContent);
    forall d, i | d in byDate && 0 <= i < nC ensures byDate[d].contentNums[i] == DayTotal(contentRows, d, i) {
      if d !in afterContent {
        NoRowsNoTotal(contentRows, d, i);
      }
    }
    forall d, i | d in byDate && 0 <= i < nO ensures byDate[d].outreachNums[i] == DayTotal(outreachRows, d, i) {
      assert byDate[d].Nums(OutreachSide)[i] == Base(afterContent, d, OutreachSide, i) + DayTotal(outreachRows, d, i);
    }
  }

  /** A day that no row names has total 0 in every column. */
  lemma {:induction false} NoRowsNoTotal(rows: seq<seq<string>>, d: Date, i: nat)
    requires d !in RowDates(rows)
    ensures DayTotal(rows, d, i) == 0.0
  {
    if rows != [] {
      NoRowsNoTotal(rows[..|rows| - 1], d, i);
    }
  }

  /** Day totals add up over consecutive blocks of rows: rows of the same date are summed, never overwritten. */
  lemma {:induction false} DayTotalAppend(a: seq<seq<string>>, b: seq<seq<string>>, d: Date, i: nat)
    ensures DayTotal(a + b, d, i) == DayTotal(a, d, i) + DayTotal(b, d, i)
    decreases |b|
  {
    if b == [] {
      assert a + b == a;
    } else {
      assert (a + b)[..|a + b| - 1] == a + b[..|b| - 1];
      DayTotalAppend(a, b[..|b| - 1], d, i);
    }
  }

  /** A row whose first cell is not a `DD.MM.YYYY` date contributes nothing to any day. */
  lemma UndatedRowIgnored(a: seq<seq<string>>, row: seq<string>, b: seq<seq<string>>, d: Date, i: nat)
    requires RowDate(row).None?
    ensures DayTotal(a + [row] + b, d, i) == DayTotal(a + b, d, i)
  {
    var t := DayTotal(a, d, i);
    assert DayTotal(a + [row], d, i) == t by { DayTotalStep(a, row, d, i); }
    assert DayTotal(a + [row] + b, d, i) == t + DayTotal(b, d, i) by { DayTotalAppend(a + [row], b, d, i); }
    assert DayTotal(a + b, d, i) == t + DayTotal(b, d, i) by { DayTotalAppend(a, b, d, i); }
  }

  /** Two rows of the same day add up: the day's total is the sum of both rows' cells. */
  lemma SameDayRowsAdd(r1: seq<string>, r2: seq<string>, d: Date, i: nat)
    requires RowDate(r1) == Some(d) && RowDate(r2) == Some(d)
    ensures DayTotal([r1, r2], d, i) == ToNum(Cell(r1, i + 1)) + ToNum(Cell(r2, i + 1))
  {
    DayTotalStep([], r1, d, i);
    assert [] + [r1] == [r1] && [r1] + [r2] == [r1, r2];
    DayTotalStep([r1], r2, d, i);
  }
}

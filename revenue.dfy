/**
 * The revenue tab's table logic: the integer cell reader `toInt`, and the split of the sheet's values
 * into a header row and data rows, with one chart point per data row and the totals of the revenue
 * column (1) and the retainer column (2).
 */
module Revenue {
  import opened Wrappers
  import opened Text
  import opened Numbers

  /** The characters that `replace(/[^\d-]/g, '')` keeps. */
  predicate Kept(c: char) {
    IsDigit(c) || c == '-'
  }

  /** `s.replace(/[^\d-]/g, '')`: the digits and minus signs of `s`, in their order. */
  function KeepDigitsAndMinus(s: string): (r: string)
    ensures |r| <= |s|
    ensures forall i :: 0 <= i < |r| ==> Kept(r[i])
    decreases |s|
  {
    if s == [] then []
    else
      var r := KeepDigitsAndMinus(s[..|s| - 1]);
      if Kept(s[|s| - 1]) then r + [s[|s| - 1]] else r
  }

  /** A string of digits and minus signs only is left as it is. */
  lemma {:induction false} KeepAllKept(s: string)
    requires forall i :: 0 <= i < |s| ==> Kept(s[i])
    ensures KeepDigitsAndMinus(s) == s
    decreases |s|
  {
    if s != [] {
      var init := s[..|s| - 1];
      assert forall i :: 0 <= i < |init| ==> init[i] == s[i];
      KeepAllKept(init);
      assert s == init + [s[|s| - 1]];
    }
  }

  /**
   * `Number.parseInt(t, 10)`: leading white space skipped, an optional sign, then the longest run of
   * decimal digits; `None` stands for `NaN` (no digit where the number should start).
   */
  function ParseInt(t: string): Option<int> {
    var b := SkipSpaces(t, 0);
    var neg := b < |t| && t[b] == '-';
    var p := if b < |t| && (t[b] == '+' || t[b] == '-') then b + 1 else b;
    var n := DigitRun(t, p);
    if n == 0 then None
    else
      var v := NumeralValue(t[p..p + n]);
      Some(if neg then -v else v)
  }

  /** `toInt`: a cell (`None` for a missing one) read as an integer; a blank or unreadable cell is 0. */
  function ToInt(raw: Option<string>): (n: int)
    ensures Trim(raw.GetOr("")) == [] ==> n == 0
  {
    var s := Trim(raw.GetOr(""));
    if s == [] then 0 else ParseInt(KeepDigitsAndMinus(s)).GetOr(0)
  }

  /** Filtering a concatenation filters each part. */
  lemma {:induction false} KeepAppend(a: string, b: string)
    ensures KeepDigitsAndMinus(a + b) == KeepDigitsAndMinus(a) + KeepDigitsAndMinus(b)
    decreases |b|
  {
    if b == [] {
      assert a + b == a;
    } else {
      var init := b[..|b| - 1];
      assert (a + b)[..|a + b| - 1] == a + init;
      assert (a + b)[|a + b| - 1] == b[|b| - 1];
      KeepAppend(a, init);
    }
  }

  /** White space is never kept. */
  lemma {:induction false} KeepSpaces(s: string)
    requires forall i :: 0 <= i < |s| ==> IsJsSpace(s[i])
    ensures KeepDigitsAndMinus(s) == []
    decreases |s|
  {
    if s != [] {
      var init := s[..|s| - 1];
      assert forall i :: 0 <= i < |init| ==> init[i] == s[i];
      KeepSpaces(init);
    }
  }

  /** Trimming before filtering changes nothing: the trimmed characters are white space. */
  lemma KeepTrimmed(s: string)
    ensures KeepDigitsAndMinus(Trim(s)) == KeepDigitsAndMinus(s)
  {
    KeepTrimStart(s);
    KeepTrimEnd(TrimStart(s));
  }

  lemma {:induction false} KeepTrimStart(s: string)
    ensures KeepDigitsAndMinus(TrimStart(s)) == KeepDigitsAndMinus(s)
    decreases |s|
  {
    if s != [] && IsJsSpace(s[0]) {
      KeepTrimStart(s[1..]);
      KeepDropsLeadingSpace(s);
    }
  }

  lemma KeepDropsLeadingSpace(s: string)
    requires s != [] && IsJsSpace(s[0])
    ensures KeepDigitsAndMinus(s) == KeepDigitsAndMinus(s[1..])
  {
    assert s == [s[0]] + s[1..];
    KeepAppend([s[0]], s[1..]);
  }

  lemma {:induction false} KeepTrimEnd(s: string)
    ensures KeepDigitsAndMinus(TrimEnd(s)) == KeepDigitsAndMinus(s)
    decreases |s|
  {
    if s != [] && IsJsSpace(s[|s| - 1]) {
      KeepTrimEnd(s[..|s| - 1]);
    }
  }

  /** `toInt` is `parseInt` of the digits and minus signs of the cell, with `NaN` read as 0. */
  lemma ToIntReadsKept(s: string)
    ensures ToInt(Some(s)) == ParseInt(KeepDigitsAndMinus(s)).GetOr(0)
  {
    KeepTrimmed(s);
    var t := Trim(s);
    if t == [] {
      assert KeepDigitsAndMinus(s) == KeepDigitsAndMinus(t) == [];
      NothingToParse();
    } else {
      assert ToInt(Some(s)) == ParseInt(KeepDigitsAndMinus(t)).GetOr(0);
    }
  }

  /** `parseInt("")` is `NaN`. */
  lemma NothingToParse()
    ensures ParseInt([]) == None
  {
    assert SkipSpaces([], 0) == 0;
    assert DigitRun([], 0) == 0;
  }

  /** A non-empty run of digits is read as the number it spells. */
  lemma ParseIntDigits(t: string)
    requires t != [] && AllDigits(t)
    ensures ParseInt(t) == Some(DigitsValue(t))
  {
    assert SkipSpaces(t, 0) == 0 by { assert !IsJsSpace(t[0]); }
    DigitRunAll(t, 0);
    assert t[0..|t|] == t;
    NumeralValueIsDigitsValue(t);
  }

  /** A minus sign before a non-empty run of digits negates it. */
  lemma ParseIntNegative(ds: string)
    requires ds != [] && AllDigits(ds)
    ensures ParseInt("-" + ds) == Some(-(DigitsValue(ds) as int))
  {
    var t := "-" + ds;
    assert SkipSpaces(t, 0) == 0;
    assert t[1..] == ds;
    DigitRunAll(t, 1);
    assert t[1..1 + |ds|] == ds;
    NumeralValueIsDigitsValue(ds);
  }

  /** The digits up to the first character that is not one are read; a minus sign after them ends the number. */
  lemma ParseIntStopsAtMinus(ds: string, rest: string)
    requires ds != [] && AllDigits(ds)
    ensures ParseInt(ds + "-" + rest) == Some(DigitsValue(ds))
  {
    var t := ds + "-" + rest;
    assert SkipSpaces(t, 0) == 0 by { assert t[0] == ds[0]; assert !IsJsSpace(t[0]); }
    assert t[0..|ds|] == ds;
    DigitRunPrefix(t, 0, |ds|);
    NumeralValueIsDigitsValue(ds);
  }

  /** No digit after the optional sign is `NaN`: a lone or doubled minus sign reads as nothing. */
  lemma ParseIntNoDigits(rest: string)
    ensures ParseInt("") == None
    ensures ParseInt("-") == None
    ensures ParseInt("--" + rest) == None
  {
    assert SkipSpaces("-", 0) == 0;
    assert SkipSpaces("--" + rest, 0) == 0;
    assert ("--" + rest)[1] == '-';
  }

  /** `toInt` reads back every integer as `String(i)` writes it. */
  lemma ToIntRoundTrip(i: int)
    ensures ToInt(Some(IntToString(i))) == i
  {
    var s := IntToString(i);
    var n: nat := if i < 0 then -i else i;
    var ds := NatToString(n);
    NatToStringRoundTrip(n);
    assert forall k :: 0 <= k < |s| ==> Kept(s[k]) by {
      if i < 0 {
        assert forall k :: 1 <= k < |s| ==> s[k] == ds[k - 1];
      }
    }
    KeepAllKept(s);
    ToIntReadsKept(s);
    if i < 0 {
      ParseIntNegative(ds);
    } else {
      ParseIntDigits(ds);
    }
  }

  /** Any character other than a digit or a minus sign, a thousands separator in particular, is ignored. */
  lemma ToIntIgnoresSeparator(a: string, c: char, b: string)
    requires !Kept(c)
    ensures ToInt(Some(a + [c] + b)) == ToInt(Some(a + b))
  {
    ToIntReadsKept(a + [c] + b);
    ToIntReadsKept(a + b);
    KeepAppend(a + [c], b);
    KeepAppend(a, [c]);
    KeepAppend(a, b);
    assert [c][..0] == [];
  }

  /** A number written with a thousands separator, such as "2,880", is read as its digits without it. */
  lemma ThousandsSeparator(a: string, b: string)
    requires a != [] && AllDigits(a) && AllDigits(b)
    ensures ToInt(Some(a + "," + b)) == DigitsValue(a + b)
  {
    assert AllDigits(a + b) by {
      assert forall i :: |a| <= i < |a + b| ==> (a + b)[i] == b[i - |a|];
    }
    assert a + "," + b == a + [','] + b;
    ToIntIgnoresSeparator(a, ',', b);
    KeepAllKept(a + b);
    ToIntReadsKept(a + b);
    ParseIntDigits(a + b);
  }

  /** A point on the revenue chart: the month label and the revenue of that row. */
  datatype ChartPoint = ChartPoint(name: string, revenue: int)

  /** What the tab derives from the sheet's values. */
  datatype Table = Table(headers: seq<string>, rows: seq<seq<string>>, chartData: seq<ChartPoint>,
                         totalRevenue: int, totalMrrSigned: int)

  /** `r[i]`, or `undefined` past the end of a short row. */
  function CellAt(r: seq<string>, i: nat): (c: Option<string>)
    ensures c.Some? <==> i < |r|
    ensures c.Some? ==> c.value == r[i]
  {
    if i < |r| then Some(r[i]) else None
  }

  /** The chart point of a data row: `r[0] ?? ''` and `toInt(r[1])`. */
  function Point(r: seq<string>): ChartPoint {
    ChartPoint(CellAt(r, 0).GetOr(""), ToInt(CellAt(r, 1)))
  }

  /** Reading column `col` of a row with `toInt`, a missing cell as `toInt(undefined)`. */
  function ReadColumn(col: nat): seq<string> -> int {
    r => ToInt(CellAt(r, col))
  }

  /** `rows.map(f)`. */
  function MapRows(f: seq<string> -> int, rows: seq<seq<string>>): (c: seq<int>)
    ensures |c| == |rows| && forall i :: 0 <= i < |rows| ==> c[i] == f(rows[i])
  {
    seq(|rows|, i requires 0 <= i < |rows| => f(rows[i]))
  }

  /** Mapping a concatenation maps each part. */
  lemma MapRowsAppend(f: seq<string> -> int, a: seq<seq<string>>, b: seq<seq<string>>)
    ensures MapRows(f, a + b) == MapRows(f, a) + MapRows(f, b)
  {
    assert forall i :: 0 <= i < |a| ==> (a + b)[i] == a[i];
    assert forall i :: |a| <= i < |a + b| ==> (a + b)[i] == b[i - |a|];
  }

  /** A column of the rows read with `toInt`. */
  function Cells(rows: seq<seq<string>>, col: nat): (c: seq<int>)
    ensures |c| == |rows|
  {
    MapRows(ReadColumn(col), rows)
  }

  /** A sum from the first number on. */
  function SumInts(xs: seq<int>): int
    decreases |xs|
  {
    if xs == [] then 0 else SumInts(xs[..|xs| - 1]) + xs[|xs| - 1]
  }

  /** `parsed.reduce((a, b) => a + b.x, 0)`: the column read with `toInt`, added up from the first row on. */
  function ColumnTotal(rows: seq<seq<string>>, col: nat): int {
    SumInts(Cells(rows, col))
  }

  /** The sum of the chart's revenue values. */
  function ChartTotal(points: seq<ChartPoint>): int
    decreases |points|
  {
    if points == [] then 0 else ChartTotal(points[..|points| - 1]) + points[|points| - 1].revenue
  }

  /** The `useMemo` of the tab: the first row is the header, every other row a data row. */
  function Tabulate(values: seq<seq<string>>): (t: Table)
    ensures values == [] ==> t == Table([], [], [], 0, 0)
    ensures values != [] ==> t.headers == values[0] && t.rows == values[1..]
    ensures |t.chartData| == |t.rows|
    ensures forall i :: 0 <= i < |t.rows| ==> t.chartData[i] == Point(t.rows[i])
    ensures t.totalRevenue == ColumnTotal(t.rows, 1) && t.totalMrrSigned == ColumnTotal(t.rows, 2)
  {
    if values == [] then Table([], [], [], 0, 0)
    else
      var rest := values[1..];
      Table(values[0], rest, seq(|rest|, i requires 0 <= i < |rest| => Point(rest[i])),
            ColumnTotal(rest, 1), ColumnTotal(rest, 2))
  }

  /** Sums add up over consecutive blocks. */
  lemma {:induction false} SumIntsAppend(a: seq<int>, b: seq<int>)
    ensures SumInts(a + b) == SumInts(a) + SumInts(b)
    decreases |b|
  {
    if b == [] {
      assert a + b == a;
    } else {
      assert (a + b)[..|a + b| - 1] == a + b[..|b| - 1];
      SumIntsAppend(a, b[..|b| - 1]);
    }
  }

  /** Column totals add up over consecutive blocks of rows. */
  lemma ColumnTotalAppend(a: seq<seq<string>>, b: seq<seq<string>>, col: nat)
    ensures ColumnTotal(a + b, col) == ColumnTotal(a, col) + ColumnTotal(b, col)
  {
    MapRowsAppend(ReadColumn(col), a, b);
    SumIntsAppend(Cells(a, col), Cells(b, col));
  }

  /** A row whose cell is blank or missing adds nothing to that column's total. */
  lemma BlankCellAddsNothing(rows: seq<seq<string>>, r: seq<string>, col: nat)
    requires col < |r| ==> Trim(r[col]) == []
    ensures ColumnTotal(rows + [r], col) == ColumnTotal(rows, col)
  {
    MapRowsAppend(ReadColumn(col), rows, [r]);
    assert Cells([r], col) == [ToInt(CellAt(r, col))];
    assert ToInt(CellAt(r, col)) == 0;
    SumIntsAppend(Cells(rows, col), [0]);
  }

  /** A chart whose values are `vals`, one by one, sums to the sum of `vals`. */
  lemma {:induction false} ChartSumsValues(points: seq<ChartPoint>, vals: seq<int>)
    requires |points| == |vals| && forall i :: 0 <= i < |vals| ==> points[i].revenue == vals[i]
    ensures ChartTotal(points) == SumInts(vals)
    decreases |vals|
  {
    if vals != [] {
      var n := |vals| - 1;
      ChartSumsValues(points[..n], vals[..n]);
    }
  }

  /** The revenue total is the sum of the chart's values: both read column 1 of the same rows. */
  lemma RevenueIsChartSum(points: seq<ChartPoint>, rows: seq<seq<string>>)
    requires |points| == |rows| && forall i :: 0 <= i < |rows| ==> points[i] == Point(rows[i])
    ensures ChartTotal(points) == ColumnTotal(rows, 1)
  {
    var vals := Cells(rows, 1);
    forall i | 0 <= i < |vals|
      ensures points[i].revenue == vals[i]
    {
      assert points[i] == Point(rows[i]);
    }
    ChartSumsValues(points, vals);
  }

  /** The totals of a table are those of its chart, and the header row never counts. */
  lemma TableTotals(values: seq<seq<string>>)
    ensures var t := Tabulate(values); ChartTotal(t.chartData) == t.totalRevenue
  {
    var t := Tabulate(values);
    RevenueIsChartSum(t.chartData, t.rows);
  }
}

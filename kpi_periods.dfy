/**
 * The month arithmetic of the KPI tab: `normalizePeriod`, which rewrites a `Y-M` period with a
 * two-digit month, and `monthsBetween`, which lists the `YYYY-MM` labels from one month to another,
 * both ends included. Both read the parts of a period with `Number(...)`, kept here when its value is an
 * integer and otherwise taken as `NaN`.
 */
module KpiPeriods {
  import opened Wrappers
  import opened Text
  import opened Seqs
  import Numbers

  /** A number as `Number(...)` yields it from a period part: an integer, or `NaN`. */
  datatype Num = N(n: int) | NaN

  /**
   * `Number(t)` for a period part: an undefined part (`None`) is `NaN`; a text is read as `Number`
   * reads it (white space, sign, point, exponent, radix prefixes). Only integer values are kept:
   * a text whose number has a fraction or is infinite is taken as `NaN`.
   */
  function JsNumber(t: Option<string>): Num {
    match t
    case None => NaN
    case Some(s) => IntegerOf(Numbers.StringToNumber(s))
  }

  /** An integer-valued number, or `NaN`. */
  function IntegerOf(x: Numbers.JsNum): Num {
    match x
    case Finite(v) => if v.Floor as real == v then N(v.Floor) else NaN
    case _ => NaN
  }

  /** `String(x)`. */
  function NumberText(x: Num): string {
    match x
    case N(k) => IntToString(k)
    case NaN => "NaN"
  }

  /** The first two `-`-separated parts of a text; a missing second part is `None`. */
  function YearAndMonthText(p: string): (r: (string, Option<string>))
    ensures '-' !in p ==> r == (p, None)
  {
    var parts := Split(p, '-');
    assert '-' !in p ==> parts == [p];
    (parts[0], if |parts| > 1 then Some(parts[1]) else None)
  }

  /**
   * `normalizePeriod`: "" for an empty period or one without a year or month part, otherwise the year
   * part, `-`, and `String(Number(month))` padded to two characters with zeros.
   */
  function NormalizePeriod(p: string): (r: string)
    ensures p == [] ==> r == []
    ensures '-' !in p ==> r == []
    ensures r != [] ==> '-' in r
  {
    var (y, m) := YearAndMonthText(p);
    if p == [] || y == [] || m == None || m == Some([]) then []
    else
      var r := y + "-" + PadStart2(NumberText(JsNumber(m)));
      assert r[|y|] == '-';
      r
  }

  /** The label `monthsBetween` pushes: the year, `-`, and the month padded to two characters. */
  function Label(y: int, m: int): string {
    IntToString(y) + "-" + PadStart2(IntToString(m))
  }

  /** The year and month `monthsBetween` reads from a period with `split('-').map(Number)`. */
  function YearMonth(p: string): (Num, Num) {
    var (y, m) := YearAndMonthText(p);
    (JsNumber(Some(y)), JsNumber(m))
  }

  /** The loop condition `y < ey || (y === ey && m <= em)` once the start is known to be numeric. */
  predicate Continues(y: int, m: int, ey: int, em: Num) {
    y < ey || (y == ey && em.N? && m <= em.n)
  }

  /** `m++`, and past 12 month 1 of the next year. */
  function Next(y: int, m: int): (int, int) {
    if m + 1 > 12 then (y + 1, 1) else (y, m + 1)
  }

  /** The labels the loop pushes from `(y, m)` on. */
  function Months(y: int, m: int, ey: int, em: Num): seq<string>
    decreases ey - y, 13 - m
  {
    if Continues(y, m, ey, em) then
      var nx := Next(y, m);
      [Label(y, m)] + Months(nx.0, nx.1, ey, em)
    else []
  }

  /**
   * What `monthsBetween(startYM, endYM)` lists. A start or end year that is `NaN` fails the loop
   * condition at once; a start month that is `NaN` is taken to give no months (see `MonthlessStartHangs`).
   */
  function MonthRange(startYM: string, endYM: string): seq<string> {
    MonthsOf(YearMonth(startYM), YearMonth(endYM))
  }

  /** The months listed from a start to an end year and month as read from the periods. */
  function MonthsOf(start: (Num, Num), end: (Num, Num)): seq<string> {
    if start.0.N? && start.1.N? && end.0.N? then Months(start.0.n, start.1.n, end.0.n, end.1) else []
  }

  method MonthsBetween(startYM: string, endYM: string) returns (out: seq<string>)
    ensures out == MonthRange(startYM, endYM)
  {
    out := MonthsFrom(YearMonth(startYM), YearMonth(endYM));
  }

  /** `monthsBetween` once both periods are read: no months unless the start and the end year are numbers. */
  method MonthsFrom(start: (Num, Num), end: (Num, Num)) returns (out: seq<string>)
    ensures out == MonthsOf(start, end)
  {
    var (sy, sm) := start;
    var (ey, em) := end;
    out := [];
    if sy.N? && sm.N? && ey.N? {
      out := MonthLoop(sy.n, sm.n, ey.n, em);
    }
  }

  /** The loop of `monthsBetween`, pushing one label per month until the end month is passed. */
  method MonthLoop(sy: int, sm: int, ey: int, em: Num) returns (out: seq<string>)
    ensures out == Months(sy, sm, ey, em)
  {
    out := [];
    var y, m := sy, sm;
    while y < ey || (y == ey && em.N? && m <= em.n)
      invariant out + Months(y, m, ey, em) == Months(sy, sm, ey, em)
      decreases ey - y, 13 - m
    {
      var nx := Next(y, m);
      MonthsStep(out, y, m, ey, em);
      out := out + [Label(y, m)];
      m := m + 1;
      if m > 12 {
        m := 1;
        y := y + 1;
      }
      assert y == nx.0 && m == nx.1;
    }
    MonthsDone(y, m, ey, em);
  }


  /** One turn of the loop: the label pushed is the first of the months still to come. */
  lemma MonthsStep(out: seq<string>, y: int, m: int, ey: int, em: Num)
    requires Continues(y, m, ey, em)
    ensures (out + [Label(y, m)]) + Months(Next(y, m).0, Next(y, m).1, ey, em) == out + Months(y, m, ey, em)
  {
    var nx := Next(y, m);
    assert Months(y, m, ey, em) == [Label(y, m)] + Months(nx.0, nx.1, ey, em);
    AppendAssoc(out, [Label(y, m)], Months(nx.0, nx.1, ey, em));
  }

  /** Once the loop condition fails no month is left. */
  lemma MonthsDone(y: int, m: int, ey: int, em: Num)
    requires !Continues(y, m, ey, em)
    ensures Months(y, m, ey, em) == []
  {
  }

  /** Months counted from year 0: January of year `y` is `12 * y`. */
  function Index(y: int, m: int): int {
    12 * y + (m - 1)
  }

  /** The year and month of the month with index `k`. */
  function MonthOf(k: int): (int, int) {
    (k / 12, k % 12 + 1)
  }

  lemma MonthOfIndex(y: int, m: int)
    requires 1 <= m <= 12
    ensures MonthOf(Index(y, m)) == (y, m)
  {
    var k := Index(y, m);
    assert k / 12 == y && k % 12 == m - 1;
  }

  /** The (year, month) pairs the loop visits from `(y, m)` on. */
  function MonthPairs(y: int, m: int, ey: int, em: Num): seq<(int, int)>
    decreases ey - y, 13 - m
  {
    if Continues(y, m, ey, em) then
      var nx := Next(y, m);
      [(y, m)] + MonthPairs(nx.0, nx.1, ey, em)
    else []
  }

  function Labels(ps: seq<(int, int)>): (r: seq<string>)
    ensures |r| == |ps|
  {
    if ps == [] then [] else [Label(ps[0].0, ps[0].1)] + Labels(ps[1..])
  }

  lemma {:induction false} LabelsAt(ps: seq<(int, int)>, i: nat)
    requires i < |ps|
    ensures Labels(ps)[i] == Label(ps[i].0, ps[i].1)
    decreases i
  {
    if i > 0 {
      LabelsAt(ps[1..], i - 1);
    }
  }

  /** `Months` labels the pairs `MonthPairs` visits. */
  lemma {:induction false} MonthsLabelPairs(y: int, m: int, ey: int, em: Num)
    ensures Months(y, m, ey, em) == Labels(MonthPairs(y, m, ey, em))
    decreases ey - y, 13 - m
  {
    if Continues(y, m, ey, em) {
      var nx := Next(y, m);
      MonthsLabelPairs(nx.0, nx.1, ey, em);
      var ps := MonthPairs(y, m, ey, em);
      assert ps[0] == (y, m) && ps[1..] == MonthPairs(nx.0, nx.1, ey, em);
    }
  }

  /** The `n` consecutive months from index `k` on. */
  function PairsFrom(k: int, n: nat): (r: seq<(int, int)>)
    ensures |r| == n
    decreases n
  {
    if n == 0 then [] else [MonthOf(k)] + PairsFrom(k + 1, n - 1)
  }

  lemma {:induction false} PairsFromAt(k: int, n: nat, i: nat)
    requires i < n
    ensures PairsFrom(k, n)[i] == MonthOf(k + i)
    decreases i
  {
    if i > 0 {
      PairsFromAt(k + 1, n - 1, i - 1);
    }
  }

  /**
   * For real months the loop visits every month from the start to the end, consecutively and with
   * December followed by January of the next year: `end - start + 1` months, none when the start is
   * after the end.
   */
  lemma {:induction false} MonthPairsClosedForm(y: int, m: int, ey: int, e: int)
    requires 1 <= m <= 12 && 1 <= e <= 12
    ensures MonthPairs(y, m, ey, N(e))
            == PairsFrom(Index(y, m), if Index(y, m) <= Index(ey, e) then Index(ey, e) - Index(y, m) + 1 else 0)
    decreases ey - y, 13 - m
  {
    assert Continues(y, m, ey, N(e)) <==> Index(y, m) <= Index(ey, e);
    if Index(y, m) <= Index(ey, e) {
      var nx := Next(y, m);
      assert Index(nx.0, nx.1) == Index(y, m) + 1;
      MonthPairsClosedForm(nx.0, nx.1, ey, e);
      MonthOfIndex(y, m);
    }
  }

  lemma MonthAt(y: int, m: int, ey: int, e: int, i: nat)
    requires 1 <= m <= 12 && 1 <= e <= 12
    requires i < |MonthPairs(y, m, ey, N(e))|
    ensures Labels(MonthPairs(y, m, ey, N(e)))[i] == Label(MonthOf(Index(y, m) + i).0, MonthOf(Index(y, m) + i).1)
  {
    var ps := MonthPairs(y, m, ey, N(e));
    assert ps[i] == MonthOf(Index(y, m) + i) by {
      MonthPairsClosedForm(y, m, ey, e);
      PairsFromAt(Index(y, m), |ps|, i);
    }
    LabelsAt(ps, i);
  }

  /**
   * Between real months the list holds `end - start + 1` labels, none when the start is after the end,
   * and its `i`-th label is that of the month `i` months after the start.
   */
  lemma MonthsClosedForm(y: int, m: int, ey: int, e: int)
    requires 1 <= m <= 12 && 1 <= e <= 12
    ensures |Months(y, m, ey, N(e))| == if Index(y, m) <= Index(ey, e) then Index(ey, e) - Index(y, m) + 1 else 0
    ensures forall i :: 0 <= i < |Months(y, m, ey, N(e))| ==>
              Months(y, m, ey, N(e))[i] == Label(MonthOf(Index(y, m) + i).0, MonthOf(Index(y, m) + i).1)
  {
    MonthsLabelPairs(y, m, ey, N(e));
    MonthPairsClosedForm(y, m, ey, e);
    forall i | 0 <= i < |MonthPairs(y, m, ey, N(e))| {
      MonthAt(y, m, ey, e, i);
    }
  }

  /** `YearMonth` reads back the year and month of a label with a non-negative year. */
  lemma LabelRoundTrip(y: nat, m: nat)
    requires 1 <= m <= 12
    ensures YearMonth(Label(y, m)) == (N(y), N(m))
  {
    var ys, ms := NatToString(y), PadStart2(NatToString(m));
    PadStart2Small(m);
    NatToStringRoundTrip(y);
    DigitsNumber(ys);
    DigitsNumber(ms);
    NoSeparatorInDigits(ys, '-');
    NoSeparatorInDigits(ms, '-');
    assert Label(y, m) == ys + ['-'] + ms;
    SplitCons(ys, '-', ms);
    assert Split(ms, '-') == [ms];
  }

  /** Between two labels with non-negative years the list is `Months` from the start label. */
  lemma MonthsBetweenLabels(sy: nat, sm: nat, ey: nat, em: nat)
    requires 1 <= sm <= 12 && 1 <= em <= 12
    ensures MonthRange(Label(sy, sm), Label(ey, em)) == Months(sy, sm, ey, N(em))
  {
    LabelRoundTrip(sy, sm);
    LabelRoundTrip(ey, em);
  }

  /** A label with a non-negative year is already normalised. */
  lemma NormalizeLabel(y: nat, m: nat)
    requires 1 <= m <= 12
    ensures NormalizePeriod(Label(y, m)) == Label(y, m)
  {
    var ys, ms := NatToString(y), PadStart2(NatToString(m));
    PadStart2Small(m);
    NoSeparatorInDigits(ys, '-');
    NormalizePadsMonth(ys, ms, "");
  }

  /** A run of digits reads as the integer it spells. */
  lemma DigitsNumber(ds: string)
    requires |ds| >= 1 && AllDigits(ds)
    ensures JsNumber(Some(ds)) == N(DigitsValue(ds))
    ensures NumberText(JsNumber(Some(ds))) == NatToString(DigitsValue(ds))
  {
    Numbers.NumberOfDigits(ds);
    assert (DigitsValue(ds) as real).Floor == DigitsValue(ds);
  }

  /** `Number(String(i))` is `i`, so `String(Number(String(i)))` gives the text back. */
  lemma IntTextNumber(i: int)
    ensures JsNumber(Some(IntToString(i))) == N(i)
    ensures NumberText(JsNumber(Some(IntToString(i)))) == IntToString(i)
  {
    Numbers.NumberOfIntText(i);
    assert (i as real).Floor == i;
  }

  /** A month written with a zero fraction is the whole month: "2025-3.0" is normalised to "2025-03". */
  lemma NormalizeZeroFraction(ys: string, ds: string)
    requires ys != [] && '-' !in ys
    requires ds != [] && AllDigits(ds)
    ensures NormalizePeriod(ys + "-" + ds + ".0") == ys + "-" + PadStart2(NatToString(DigitsValue(ds)))
  {
    var ms := ds + ".0";
    assert ys + "-" + ds + ".0" == ys + "-" + ms;
    ZeroFractionNumber(ds);
    NoSeparatorInDigits(ds, '-');
    assert '-' !in ms by {
      assert forall k :: 0 <= k < |ms| ==> ms[k] == if k < |ds| then ds[k] else ".0"[k - |ds|];
    }
    TwoParts(ys, ms);
    NormalizeParts(ys + "-" + ms, ys, ms);
  }

  /** `Number("<digits>.0")` is the integer the digits spell. */
  lemma ZeroFractionNumber(ds: string)
    requires ds != [] && AllDigits(ds)
    ensures JsNumber(Some(ds + ".0")) == N(DigitsValue(ds))
    ensures NumberText(JsNumber(Some(ds + ".0"))) == NatToString(DigitsValue(ds))
  {
    Numbers.NumberZeroFraction(ds);
    assert (DigitsValue(ds) as real).Floor == DigitsValue(ds);
  }

  /** A period whose year and month parts are both present is rebuilt from them. */
  lemma NormalizeParts(p: string, ys: string, ms: string)
    requires YearAndMonthText(p) == (ys, Some(ms)) && ys != [] && ms != []
    ensures NormalizePeriod(p) == ys + "-" + PadStart2(NumberText(JsNumber(Some(ms))))
  {
  }

  /** A month written with or without leading zeros comes out as two digits: "2025-3" is "2025-03". */
  lemma NormalizePadsMonth(ys: string, ms: string, rest: string)
    requires ys != [] && '-' !in ys
    requires ms != [] && AllDigits(ms)
    ensures NormalizePeriod(ys + "-" + ms) == ys + "-" + PadStart2(NatToString(DigitsValue(ms)))
    ensures NormalizePeriod(ys + "-" + ms + "-" + rest) == ys + "-" + PadStart2(NatToString(DigitsValue(ms)))
  {
    DigitsNumber(ms);
    NoSeparatorInDigits(ms, '-');
    TwoParts(ys, ms);
    NormalizeParts(ys + "-" + ms, ys, ms);
    ThreeParts(ys, ms, rest);
    NormalizeParts(ys + "-" + ms + "-" + rest, ys, ms);
  }

  /** "Y-M" splits into its year and month parts. */
  lemma TwoParts(ys: string, ms: string)
    requires '-' !in ys && '-' !in ms
    ensures YearAndMonthText(ys + "-" + ms) == (ys, Some(ms))
  {
    SplitCons(ys, '-', ms);
    assert Split(ms, '-') == [ms];
  }

  /** "Y-M-rest" splits into the same year and month parts: the rest is ignored. */
  lemma ThreeParts(ys: string, ms: string, rest: string)
    requires '-' !in ys && '-' !in ms
    ensures YearAndMonthText(ys + "-" + ms + "-" + rest) == (ys, Some(ms))
  {
    var tail := ms + ['-'] + rest;
    assert ys + "-" + ms + "-" + rest == ys + ['-'] + tail;
    SplitCons(ys, '-', tail);
    SplitCons(ms, '-', rest);
  }

  /** The loop of `monthsBetween` on the numbers it holds, `NaN` included: `m++` and the roll-over. */
  function Step(y: Num, m: Num): (Num, Num) {
    match m
    case N(k) => if k + 1 > 12 then (if y.N? then N(y.n + 1) else NaN, N(1)) else (y, N(k + 1))
    case NaN => (y, NaN)
  }

  /** The loop condition on numbers that may be `NaN`: every comparison with `NaN` is false. */
  predicate Guard(y: Num, m: Num, ey: Num, em: Num) {
    (y.N? && ey.N? && y.n < ey.n) || (y.N? && ey.N? && y.n == ey.n && m.N? && em.N? && m.n <= em.n)
  }

  /** On numeric values the loop is the one `Months` follows. */
  lemma StepAgrees(y: int, m: int, ey: int, em: Num)
    ensures Guard(N(y), N(m), N(ey), em) <==> Continues(y, m, ey, em)
    ensures Step(N(y), N(m)) == (N(Next(y, m).0), N(Next(y, m).1))
  {
  }

  /**
   * A start period without a month part, such as "" or "2025", is normalised to "", which
   * `monthsBetween` reads as year 0 and month `NaN`. Against any end in a later year the loop condition
   * holds and a step leaves year and month as they were, so the loop never ends.
   */
  lemma MonthlessStartHangs(start: string, end: string)
    requires '-' !in start
    requires YearMonth(end).0.N? && YearMonth(end).0.n > 0
    ensures YearMonth(NormalizePeriod(start)) == (N(0), NaN)
    ensures Guard(N(0), NaN, YearMonth(end).0, YearMonth(end).1)
    ensures Step(N(0), NaN) == (N(0), NaN)
  {
    assert NormalizePeriod(start) == [];
    assert YearAndMonthText([]) == ([], None);
  }

  /** The corrected range gives no months for such a start. */
  lemma MonthlessStartIsEmpty(start: string, end: string)
    requires '-' !in start
    ensures MonthRange(NormalizePeriod(start), end) == []
  {
    assert NormalizePeriod(start) == [];
    assert YearAndMonthText([]) == ([], None);
  }
}

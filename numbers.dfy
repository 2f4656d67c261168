/**
 * Number reading and rounding as the spreadsheet code does it, on exact
 * reals: `parseFloat` (a leading decimal literal, `NaN` when there is none),
 * the cell reader that turns the first comma into a point and `NaN` into 0,
 * and the two-decimal rounding `Math.round(x * 100) / 100`.
 */
module Numbers {
  import opened Wrappers
  import opened Text

  function Pow10(n: nat): (p: nat)
    ensures p >= 1
  {
    if n == 0 then 1 else 10 * Pow10(n - 1)
  }

  /** `Math.round(y)`: the nearest integer, halves rounded up. */
  function RoundHalfUp(y: real): (r: int)
    ensures y - 1.0 / 2.0 < r as real <= y + 1.0 / 2.0
  {
    (y + 1.0 / 2.0).Floor
  }

  /** `Math.round(x * 100) / 100`. */
  function Round2(x: real): real {
    RoundHalfUp(x * 100.0) as real / 100.0
  }

  predicate IsInteger(x: real) {
    x.Floor as real == x
  }

  /** `Number.isInteger(x) ? x : Math.round(x * 100) / 100`, the form used for week and day sums. */
  function RoundSum(x: real): real {
    if IsInteger(x) then x else Round2(x)
  }

  /** Rounding moves a value by at most half a cent and lands on a whole number of cents. */
  lemma Round2Bounds(x: real)
    ensures x - 1.0 / 200.0 < Round2(x) <= x + 1.0 / 200.0
    ensures IsInteger(Round2(x) * 100.0)
  {
    var r := RoundHalfUp(x * 100.0);
    assert Round2(x) * 100.0 == r as real;
  }

  /** Whole numbers are left alone, so the `Number.isInteger` test changes nothing. */
  lemma RoundSumIsRound2(x: real)
    ensures IsInteger(x) ==> Round2(x) == x
    ensures RoundSum(x) == Round2(x)
  {
    if IsInteger(x) {
      var n := x.Floor;
      assert x * 100.0 + 1.0 / 2.0 == (100 * n) as real + 1.0 / 2.0;
      assert RoundHalfUp(x * 100.0) == 100 * n;
    }
  }

  /** Rounding twice is rounding once. */
  lemma Round2Idempotent(x: real)
    ensures Round2(Round2(x)) == Round2(x)
  {
    var r := RoundHalfUp(x * 100.0);
    assert Round2(x) * 100.0 == r as real;
    assert (r as real + 1.0 / 2.0).Floor == r;
  }

  /** Rounding never reverses the order of two values. */
  lemma Round2Monotone(x: real, y: real)
    requires x <= y
    ensures Round2(x) <= Round2(y)
  {
    var a, b := x * 100.0 + 1.0 / 2.0, y * 100.0 + 1.0 / 2.0;
    assert a <= b;
    assert a.Floor as real <= a < b.Floor as real + 1.0;
    assert RoundHalfUp(x * 100.0) <= RoundHalfUp(y * 100.0);
  }

  /** Length of the run of decimal digits starting at position `i`. */
  function DigitRun(s: string, i: nat): (n: nat)
    requires i <= |s|
    ensures i + n <= |s|
    decreases |s| - i
  {
    if i < |s| && IsDigit(s[i]) then 1 + DigitRun(s, i + 1) else 0
  }

  /** `DigitRun` finds a maximal run: digits up to it, and no digit right after it. */
  lemma {:induction false} DigitRunMaximal(s: string, i: nat)
    requires i <= |s|
    ensures AllDigits(s[i..i + DigitRun(s, i)])
    ensures i + DigitRun(s, i) < |s| ==> !IsDigit(s[i + DigitRun(s, i)])
    decreases |s| - i
  {
    if i < |s| && IsDigit(s[i]) {
      DigitRunMaximal(s, i + 1);
      var k := DigitRun(s, i + 1);
      assert s[i..i + 1 + k] == [s[i]] + s[i + 1..i + 1 + k];
    }
  }

  /** Value of a numeral, most significant digit first; agrees with `DigitsValue` on digit strings. */
  function NumeralValue(s: string): int
    decreases |s|
  {
    if s == [] then 0 else NumeralValue(s[..|s| - 1]) * 10 + ((s[|s| - 1] as int) - ('0' as int))
  }

  lemma {:induction false} NumeralValueIsDigitsValue(s: string)
    requires AllDigits(s)
    ensures NumeralValue(s) == DigitsValue(s)
    decreases |s|
  {
    if s != [] {
      NumeralValueIsDigitsValue(s[..|s| - 1]);
    }
  }

  /** Value of `digits` followed by a point and `frac`. */
  function DecimalValue(digits: string, frac: string): real {
    NumeralValue(digits) as real + FractionValue(frac)
  }

  /** Value of the digits after a decimal point: each digit is worth a tenth of the one before it. */
  function FractionValue(frac: string): real
    decreases |frac|
  {
    if frac == [] then 0.0 else (((frac[0] as int) - ('0' as int)) as real + FractionValue(frac[1..])) / 10.0
  }

  /** `v * 10^e` for any integer exponent, one power of ten at a time. */
  function Scaled(v: real, e: int): real
    decreases if e < 0 then -e else e
  {
    if e == 0 then v else if e > 0 then 10.0 * Scaled(v, e - 1) else Scaled(v, e + 1) / 10.0
  }

  /** The exponent part `e±ddd` of a decimal literal starting at `i`, as (length, value); length 0 when absent. */
  function ExponentAt(s: string, i: nat): (r: (nat, int))
    requires i <= |s|
    ensures i + r.0 <= |s|
  {
    if i < |s| && (s[i] == 'e' || s[i] == 'E') then
      var signed := i + 1 < |s| && (s[i + 1] == '+' || s[i + 1] == '-');
      var start := if signed then i + 2 else i + 1;
      var n := DigitRun(s, start);
      if n == 0 then (0, 0)
      else
        var v := NumeralValue(s[start..start + n]);
        var ev := if signed && s[i + 1] == '-' then -v else v;
        (start + n - i, ev)
    else (0, 0)
  }

  /** Position of the first character that is not white space, from `i` on. */
  function SkipSpaces(s: string, i: nat): (j: nat)
    requires i <= |s|
    ensures i <= j <= |s|
    decreases |s| - i
  {
    if i < |s| && IsJsSpace(s[i]) then SkipSpaces(s, i + 1) else i
  }

  /** Skipping white space is `trimStart`. */
  lemma {:induction false} SkipSpacesIsTrimStart(s: string, i: nat)
    requires i <= |s|
    ensures s[SkipSpaces(s, i)..] == TrimStart(s[i..])
    decreases |s| - i
  {
    if i < |s| && IsJsSpace(s[i]) {
      assert s[i..][1..] == s[i + 1..];
      SkipSpacesIsTrimStart(s, i + 1);
    }
  }

  /** A JavaScript number on exact reals: a finite value, one of the two infinities, or `NaN`. */
  datatype JsNum = Finite(value: real) | Infinite(negative: bool) | NaN

  /** The word `Infinity` stands in `s` from position `p` on. */
  predicate InfinityAt(s: string, p: nat) {
    && p + 8 <= |s|
    && s[p] == 'I' && s[p + 1] == 'n' && s[p + 2] == 'f' && s[p + 3] == 'i'
    && s[p + 4] == 'n' && s[p + 5] == 'i' && s[p + 6] == 't' && s[p + 7] == 'y'
  }

  /** A literal read after an optional sign: minus negates it, and no literal is `NaN`. */
  function Signed(negative: bool, u: Option<real>): JsNum {
    match u
    case None => NaN
    case Some(v) => Finite(if negative then -v else v)
  }

  /**
   * `parseFloat(s)`: leading white space is skipped, then the longest prefix
   * that is a signed `Infinity` or a decimal literal (sign, digits, optional
   * point and digits, at least one digit, optional exponent) is read.
   */
  function ParseFloat(s: string): JsNum {
    var b := SkipSpaces(s, 0);
    var neg := b < |s| && s[b] == '-';
    var p := if b < |s| && (s[b] == '+' || s[b] == '-') then b + 1 else b;
    if InfinityAt(s, p) then Infinite(neg) else Signed(neg, UnsignedAt(s, p))
  }

  /**
   * The unsigned decimal literal at position `p`, with the position just after it: digits,
   * an optional point and digits (at least one digit in all), and an optional exponent, which
   * may follow a point that has no digits after it ("5.e3").
   */
  function LiteralAt(t: string, p: nat): (r: Option<(real, nat)>)
    requires p <= |t|
    ensures r.Some? ==> p < r.value.1 <= |t|
  {
    var n := DigitRun(t, p);
    var q := p + n;
    var f := FractionLength(t, q);
    if n + f == 0 then None
    else
      var m := if q < |t| && t[q] == '.' then q + 1 + f else q;
      var e := ExponentAt(t, m);
      var v := DecimalValue(t[p..q], if f > 0 then t[q + 1..q + 1 + f] else "");
      Some((if e.0 == 0 then v else Scaled(v, e.1), m + e.0))
  }

  /** The value of the unsigned decimal literal at `p`, if there is one. */
  function UnsignedAt(t: string, p: nat): Option<real>
    requires p <= |t|
  {
    match LiteralAt(t, p)
    case None => None
    case Some(l) => Some(l.0)
  }

  /** Number of fraction digits after a point at `q` (0 when there is no point). */
  function FractionLength(t: string, q: nat): (f: nat)
    requires q <= |t|
    ensures f > 0 ==> q + 1 + f <= |t|
  {
    if q < |t| && t[q] == '.' then DigitRun(t, q + 1) else 0
  }

  /** `s.replace(',', '.')` with a string pattern: only the first comma becomes a point. */
  function ReplaceFirstComma(s: string): (r: string)
    ensures ',' !in s ==> r == s
    ensures |r| == |s|
  {
    var k := IndexOf(s, ',');
    if k == -1 then s else s[..k] + "." + s[k + 1..]
  }

  /**
   * The cell reader `toNum`: comma as decimal separator, `NaN` counts as 0. The sums it feeds
   * are finite, so a cell that reads as an infinity is taken as 0 too.
   */
  function ToNum(cell: string): real {
    match ParseFloat(ReplaceFirstComma(cell))
    case Finite(v) => v
    case _ => 0.0
  }

  /** The radix a `0x`, `0o` or `0b` prefix selects, 0 for any other letter. */
  function RadixOf(c: char): (r: nat)
    ensures r == 0 || r == 2 || r == 8 || r == 16
  {
    if c == 'x' || c == 'X' then 16 else if c == 'o' || c == 'O' then 8 else if c == 'b' || c == 'B' then 2 else 0
  }

  /** The value of a hexadecimal digit, -1 for any other character. */
  function HexDigit(c: char): (d: int)
    ensures -1 <= d < 16
  {
    if '0' <= c <= '9' then (c as int) - ('0' as int)
    else if 'a' <= c <= 'f' then (c as int) - ('a' as int) + 10
    else if 'A' <= c <= 'F' then (c as int) - ('A' as int) + 10
    else -1
  }

  predicate RadixDigits(s: string, radix: nat) {
    forall i :: 0 <= i < |s| ==> 0 <= HexDigit(s[i]) < radix
  }

  /** Value of a numeral in the given radix, most significant digit first. */
  function RadixValue(s: string, radix: nat): (v: nat)
    requires RadixDigits(s, radix)
  {
    if s == [] then 0 else RadixValue(s[..|s| - 1], radix) * radix + HexDigit(s[|s| - 1])
  }

  /**
   * `Number(s)` for a string: the text trimmed of white space must be empty (0), a `0x`, `0o` or
   * `0b` numeral without a sign, a signed `Infinity`, or a signed decimal literal with nothing after
   * it; anything else is `NaN`.
   */
  function StringToNumber(s: string): JsNum {
    TrimmedNumber(Trim(s))
  }

  /** `Number` of text already trimmed. */
  function TrimmedNumber(t: string): JsNum {
    if t == [] then Finite(0.0)
    else if RadixPrefixed(t) then RadixNumber(t)
    else if t[0] == '+' || t[0] == '-' then DecimalNumber(t, 1, t[0] == '-')
    else DecimalNumber(t, 0, false)
  }

  predicate RadixPrefixed(t: string) {
    |t| > 2 && t[0] == '0' && RadixOf(t[1]) != 0
  }

  /** A `0x`, `0o` or `0b` numeral: every digit after the prefix must belong to the radix. */
  function RadixNumber(t: string): JsNum
    requires RadixPrefixed(t)
  {
    var radix := RadixOf(t[1]);
    if RadixDigits(t[2..], radix) then Finite(RadixValue(t[2..], radix) as real) else NaN
  }

  /** After the sign: `Infinity`, or a decimal literal that reaches the end of the text. */
  function DecimalNumber(t: string, p: nat, negative: bool): JsNum
    requires p <= |t|
  {
    if |t| == p + 8 && InfinityAt(t, p) then Infinite(negative)
    else
      match LiteralAt(t, p)
      case None => NaN
      case Some(l) => if l.1 == |t| then Finite(if negative then -l.0 else l.0) else NaN
  }

  /** A run of digits reaching the end of the string is read whole. */
  lemma {:induction false} DigitRunAll(s: string, i: nat)
    requires i <= |s| && AllDigits(s[i..])
    ensures DigitRun(s, i) == |s| - i
    decreases |s| - i
  {
    if i < |s| {
      assert s[i] == s[i..][0];
      assert s[i + 1..] == s[i..][1..];
      DigitRunAll(s, i + 1);
    }
  }

  /** A digit run of length `n` at `i` that is followed by a non-digit (or the end) is what `DigitRun` finds. */
  lemma {:induction false} DigitRunPrefix(s: string, i: nat, n: nat)
    requires i + n <= |s| && AllDigits(s[i..i + n])
    requires i + n < |s| ==> !IsDigit(s[i + n])
    ensures DigitRun(s, i) == n
    decreases n
  {
    if n > 0 {
      assert s[i] == s[i..i + n][0];
      assert s[i + 1..i + n] == s[i..i + n][1..];
      DigitRunPrefix(s, i + 1, n - 1);
    }
  }

  /** A cell starting with a digit is read by `UnsignedAt` from its first character. */
  lemma ParseFloatUnsigned(s: string)
    requires s != [] && IsDigit(s[0])
    ensures ParseFloat(s) == Signed(false, UnsignedAt(s, 0))
  {
    assert SkipSpaces(s, 0) == 0;
  }

  lemma NoCommaUnchanged(s: string)
    requires AllDigits(s)
    ensures ReplaceFirstComma(s) == s
  {
    NoSeparatorInDigits(s, ',');
  }

  /** A cell of plain digits reads as the number they spell. */
  lemma ParseFloatDigits(s: string)
    requires |s| >= 1 && AllDigits(s)
    ensures ParseFloat(s) == Finite(DigitsValue(s) as real)
    ensures ToNum(s) == DigitsValue(s) as real
  {
    ParseFloatUnsigned(s);
    UnsignedDigits(s);
    DecimalOfDigits(s);
    NoCommaUnchanged(s);
  }

  lemma UnsignedDigits(s: string)
    requires |s| >= 1 && AllDigits(s)
    ensures UnsignedAt(s, 0) == Some(DecimalValue(s, ""))
  {
    DigitRunAll(s, 0);
    ExponentAbsent(s, |s|);
    UnsignedFromScan(s, |s|, 0);
    assert s[0..|s|] == s;
  }

  lemma DecimalOfDigits(s: string)
    requires AllDigits(s)
    ensures DecimalValue(s, "") == DigitsValue(s) as real
  {
    NumeralValueIsDigitsValue(s);
  }

  /** A whole number written in plain digits reads back as itself. */
  lemma ParseFloatNat(n: nat)
    ensures ParseFloat(NatToString(n)) == Finite(n as real)
    ensures ToNum(NatToString(n)) == n as real
  {
    NatToStringRoundTrip(n);
    ParseFloatDigits(NatToString(n));
  }

  /**
   * `parseFloat` is `NaN` exactly when, after white space and a sign, the text holds neither
   * `Infinity`, nor a digit, nor a point followed by a digit.
   */
  lemma ParseFloatNaN(s: string)
    ensures var b := SkipSpaces(s, 0);
            var p := if b < |s| && (s[b] == '+' || s[b] == '-') then b + 1 else b;
            ParseFloat(s) == NaN <==>
              !InfinityAt(s, p) && !(p < |s| && IsDigit(s[p])) && !(p + 1 < |s| && s[p] == '.' && IsDigit(s[p + 1]))
  {
    var b := SkipSpaces(s, 0);
    var p := if b < |s| && (s[b] == '+' || s[b] == '-') then b + 1 else b;
    NoLiteralAt(s, p);
  }


  /** There is no literal at `p` exactly when neither a digit nor a point and a digit stand there. */
  lemma NoLiteralAt(t: string, p: nat)
    requires p <= |t|
    ensures UnsignedAt(t, p).None? <==> !(p < |t| && IsDigit(t[p])) && !(p + 1 < |t| && t[p] == '.' && IsDigit(t[p + 1]))
  {
    var n := DigitRun(t, p);
    assert n == 0 <==> !(p < |t| && IsDigit(t[p]));
    if n == 0 {
      assert p < |t| && t[p] == '.' ==> (DigitRun(t, p + 1) == 0 <==> !(p + 1 < |t| && IsDigit(t[p + 1])));
    }
  }

  /** `Infinity`, with or without a sign, is read as that infinity whatever follows it. */
  lemma ParseFloatInfinity(sign: string, rest: string)
    requires sign == "" || sign == "+" || sign == "-"
    ensures ParseFloat(sign + "Infinity" + rest) == Infinite(sign == "-")
  {
    InfinityAfterSign(sign, rest);
  }

  lemma InfinityAfterSign(sign: string, rest: string)
    requires sign == "" || sign == "+" || sign == "-"
    ensures var s := sign + "Infinity" + rest;
            && SkipSpaces(s, 0) == 0 && InfinityAt(s, |sign|)
            && (s[0] == '+' || s[0] == '-' <==> sign != "") && (s[0] == '-' <==> sign == "-")
  {
    var s, w := sign + "Infinity" + rest, "Infinity";
    assert forall k :: 0 <= k < 8 ==> s[|sign| + k] == w[k];
    assert s[0] == if sign == "" then 'I' else sign[0];
  }

  /** An exponent may follow a point with no digits after it: "5.e3" is five thousand. */
  lemma PointBeforeExponent(ds: string, es: string)
    requires |ds| >= 1 && AllDigits(ds) && |es| >= 1 && AllDigits(es)
    ensures ParseFloat(ds + ".e" + es) == Finite(Scaled(DigitsValue(ds) as real, DigitsValue(es)))
  {
    var s, q := ds + ".e" + es, |ds|;
    assert s[0] == ds[0];
    ParseFloatUnsigned(s);
    PointScan(s, ds, es);
    ExponentDigits(s, q + 1, es);
    DecimalOfDigits(ds);
    var k := DigitsValue(es);
    PointLiteral(s, q, 1 + |es|, k);
  }

  /** Digits up to a point with no digits after it, then an exponent: the literal runs to the exponent's end. */
  lemma PointLiteral(t: string, q: nat, len: nat, k: int)
    requires 0 < q < |t| && DigitRun(t, 0) == q && t[q] == '.' && FractionLength(t, q) == 0
    requires ExponentAt(t, q + 1) == (len, k) && len > 0
    ensures LiteralAt(t, 0) == Some((Scaled(DecimalValue(t[0..q], ""), k), q + 1 + len))
  {
  }

  lemma PointScan(s: string, ds: string, es: string)
    requires |ds| >= 1 && AllDigits(ds) && s == ds + ".e" + es
    ensures DigitRun(s, 0) == |ds| && s[0..|ds|] == ds && s[|ds|] == '.'
    ensures FractionLength(s, |ds|) == 0
    ensures s[|ds| + 1..] == "e" + es
  {
    var q := |ds|;
    assert s[0..q] == ds && s[q] == '.' && s[q + 1] == 'e';
    DigitRunPrefix(s, 0, q);
  }

  lemma ExponentDigits(s: string, i: nat, es: string)
    requires i <= |s| && |es| >= 1 && AllDigits(es) && s[i..] == "e" + es
    ensures ExponentAt(s, i) == (1 + |es|, DigitsValue(es))
  {
    ExponentScan(s, i, es);
  }

  /** What `ExponentAt` looks at in `e` followed by digits. */
  lemma ExponentScan(s: string, i: nat, es: string)
    requires i <= |s| && |es| >= 1 && AllDigits(es) && s[i..] == "e" + es
    ensures i + 1 + |es| == |s| && s[i] == 'e' && s[i + 1] != '+' && s[i + 1] != '-'
    ensures DigitRun(s, i + 1) == |es| && NumeralValue(s[i + 1..i + 1 + |es|]) == DigitsValue(es)
  {
    assert s[i] == 'e' && s[i + 1] == es[0];
    assert s[i + 1..] == es;
    DigitRunAll(s, i + 1);
    assert s[i + 1..i + 1 + |es|] == es;
    NumeralValueIsDigitsValue(es);
  }

  lemma PointBeforeExponentExample()
    ensures ParseFloat("5.e3") == Finite(5000.0)
  {
    assert "5.e3" == "5" + ".e" + "3";
    PointBeforeExponent("5", "3");
    assert DigitsValue("5") == 5 && DigitsValue("3") == 3;
    assert Scaled(5.0, 3) == 10.0 * Scaled(5.0, 2) == 100.0 * Scaled(5.0, 1) == 1000.0 * Scaled(5.0, 0);
  }

  /**
   * `digits.frac` followed by anything that cannot continue the literal is
   * read as that decimal number; the rest of the cell is ignored.
   */
  lemma ParseFloatDecimal(ds: string, fs: string, rest: string)
    requires |ds| >= 1 && AllDigits(ds) && AllDigits(fs)
    requires rest == [] || (!IsDigit(rest[0]) && rest[0] != 'e' && rest[0] != 'E')
    ensures ParseFloat(ds + "." + fs + rest) == Finite(DecimalValue(ds, fs))
  {
    var s := ds + "." + fs + rest;
    assert s[0] == ds[0];
    ParseFloatUnsigned(s);
    var q, e := |ds|, |ds| + 1 + |fs|;
    DecimalScan(s, ds, fs, rest);
    ExponentAbsent(s, q);
    ExponentAbsent(s, e);
    UnsignedFromScan(s, q, |fs|);
    if |fs| == 0 {
      assert fs == "";
    }
  }

  lemma ExponentAbsent(s: string, i: nat)
    requires i == |s| || (i < |s| && s[i] != 'e' && s[i] != 'E')
    ensures ExponentAt(s, i) == (0, 0)
  {
  }

  lemma UnsignedFromScan(s: string, q: nat, f: nat)
    requires q <= |s| && DigitRun(s, 0) == q && FractionLength(s, q) == f
    requires ExponentAt(s, if q < |s| && s[q] == '.' then q + 1 + f else q) == (0, 0)
    requires q + f > 0
    ensures LiteralAt(s, 0) == Some((DecimalValue(s[0..q], if f > 0 then s[q + 1..q + 1 + f] else ""),
                                     if q < |s| && s[q] == '.' then q + 1 + f else q))
    ensures UnsignedAt(s, 0) == Some(DecimalValue(s[0..q], if f > 0 then s[q + 1..q + 1 + f] else ""))
  {
    var m := if q < |s| && s[q] == '.' then q + 1 + f else q;
    var v := DecimalValue(s[0..q], if f > 0 then s[q + 1..q + 1 + f] else "");
    LiteralWithoutExponent(s, 0, q, f, m, v);
  }

  /** A literal with no exponent is worth its mantissa and ends where the mantissa ends. */
  lemma LiteralWithoutExponent(s: string, p: nat, q: nat, f: nat, m: nat, v: real)
    requires p <= q <= |s| && DigitRun(s, p) == q - p && FractionLength(s, q) == f && q - p + f > 0
    requires m == (if q < |s| && s[q] == '.' then q + 1 + f else q) && m <= |s|
    requires ExponentAt(s, m) == (0, 0)
    requires v == DecimalValue(s[p..q], if f > 0 then s[q + 1..q + 1 + f] else "")
    ensures LiteralAt(s, p) == Some((v, m))
  {
  }

  lemma DecimalScan(s: string, ds: string, fs: string, rest: string)
    requires |ds| >= 1 && AllDigits(ds) && AllDigits(fs)
    requires rest == [] || (!IsDigit(rest[0]) && rest[0] != 'e' && rest[0] != 'E')
    requires s == ds + "." + fs + rest
    ensures DigitRun(s, 0) == |ds| && s[0..|ds|] == ds && s[|ds|] == '.'
    ensures FractionLength(s, |ds|) == |fs| && s[|ds| + 1..|ds| + 1 + |fs|] == fs
    ensures var e := |ds| + 1 + |fs|;
            e == |s| || (e < |s| && s[e] != 'e' && s[e] != 'E')
  {
    var q, e := |ds|, |ds| + 1 + |fs|;
    assert s[0..q] == ds;
    assert s[q] == '.';
    DigitRunPrefix(s, 0, q);
    assert s[q + 1..e] == fs;
    assert e < |s| ==> s[e] == rest[0];
    DigitRunPrefix(s, q + 1, |fs|);
  }

  /** Digits, then a comma: that comma is the first one, and it becomes a point. */
  lemma ReplaceAfterDigits(ds: string, tail: string)
    requires AllDigits(ds)
    ensures ReplaceFirstComma(ds + "," + tail) == ds + "." + tail
  {
    NoSeparatorInDigits(ds, ',');
    SplitAtFirst(ds, ',', tail);
  }

  /** A cell written with a decimal comma, `digits,frac` and a tail that cannot continue the number, reads as that decimal. */
  lemma ToNumDecimalComma(ds: string, fs: string, rest: string)
    requires |ds| >= 1 && AllDigits(ds) && AllDigits(fs)
    requires rest == [] || (!IsDigit(rest[0]) && rest[0] != 'e' && rest[0] != 'E')
    ensures ToNum(ds + "," + fs + rest) == DecimalValue(ds, fs)
  {
    assert ds + "," + fs + rest == ds + "," + (fs + rest);
    ReplaceAfterDigits(ds, fs + rest);
    assert ds + "." + (fs + rest) == ds + "." + fs + rest;
    ParseFloatDecimal(ds, fs, rest);
  }

  /** Text with no number at its start, such as an empty cell or "n/a", counts as 0. */
  lemma ToNumEmpty()
    ensures ToNum("") == 0.0
    ensures ToNum("n/a") == 0.0
  {
    assert ReplaceFirstComma("n/a") == "n/a";
    assert SkipSpaces("n/a", 0) == 0;
    ParseFloatNaN("n/a");
  }

  /** The German-style cell "12,5" is read as twelve and a half. */
  lemma ToNumCommaExample()
    ensures ToNum("12,5") == 25.0 / 2.0
  {
    assert "12,5" == "12" + "," + "5" + "";
    ToNumDecimalComma("12", "5", "");
    DecimalExamples();
  }

  /** Only the first comma becomes a point: "1,234,5" reads as 1.234. */
  lemma ToNumSecondCommaExample()
    ensures ToNum("1,234,5") == 617.0 / 500.0
  {
    assert "1,234,5" == "1" + "," + "234" + ",5";
    ToNumDecimalComma("1", "234", ",5");
    DecimalExamples();
  }

  lemma DecimalExamples()
    ensures DecimalValue("12", "5") == 25.0 / 2.0 && DecimalValue("1", "234") == 617.0 / 500.0
  {
    assert "12"[..1] == "1" && "1"[..0] == "";
    assert NumeralValue("12") == 12 && NumeralValue("1") == 1;
    assert "5"[1..] == "" && FractionValue("5") == 5.0 / 10.0;
    assert "234"[1..] == "34" && "34"[1..] == "4" && "4"[1..] == "";
    assert FractionValue("4") == 4.0 / 10.0;
    assert FractionValue("34") == (3.0 + 4.0 / 10.0) / 10.0;
    assert FractionValue("234") == (2.0 + (3.0 + 4.0 / 10.0) / 10.0) / 10.0;
  }

  /** A run of digits up to the end of the text is a literal reaching the end, worth the digits' value. */
  lemma LiteralOfDigits(t: string, p: nat)
    requires p < |t| && AllDigits(t[p..])
    ensures LiteralAt(t, p) == Some((DigitsValue(t[p..]) as real, |t|))
  {
    DigitRunAll(t, p);
    ExponentAbsent(t, |t|);
    assert t[p..p + (|t| - p)] == t[p..];
    DecimalOfDigits(t[p..]);
  }

  /** Text that neither starts nor ends with white space is its own trim. */
  lemma TrimUnchanged(s: string)
    requires s != [] && !IsJsSpace(s[0]) && !IsJsSpace(s[|s| - 1])
    ensures Trim(s) == s
  {
    assert TrimStart(s) == s;
  }

  /** `Number` of text that needs no trimming. */
  lemma TrimmedText(t: string)
    requires t != [] && !IsJsSpace(t[0]) && !IsJsSpace(t[|t| - 1])
    ensures StringToNumber(t) == TrimmedNumber(t)
  {
    TrimUnchanged(t);
  }

  lemma DigitNotSpace(c: char)
    requires IsDigit(c)
    ensures !IsJsSpace(c)
  {
  }

  /** Digits up to the end, after an optional sign, are read as their value. */
  lemma DecimalOfDigitsAt(t: string, p: nat, negative: bool)
    requires p < |t| && AllDigits(t[p..])
    ensures DecimalNumber(t, p, negative) == Finite(if negative then -(DigitsValue(t[p..]) as real) else DigitsValue(t[p..]) as real)
  {
    assert t[p..][0] == t[p];
    LiteralOfDigits(t, p);
  }

  /** `Number(String(i))` is `i`: the text of an integer, minus sign included, reads back as it. */
  lemma NumberOfIntText(i: int)
    ensures StringToNumber(IntToString(i)) == Finite(i as real)
  {
    var t := IntToString(i);
    var ds := NatToString(if i < 0 then -i else i);
    NatToStringRoundTrip(if i < 0 then -i else i);
    if i < 0 {
      assert t == "-" + ds;
      TrimmedNegative(t, ds);
      DigitNotSpace(ds[|ds| - 1]);
      TrimmedText(t);
    } else {
      NumberOfDigits(t);
    }
  }

  lemma TrimmedNegative(t: string, ds: string)
    requires |ds| >= 1 && AllDigits(ds) && t == "-" + ds
    ensures t[|t| - 1] == ds[|ds| - 1]
    ensures TrimmedNumber(t) == Finite(-(DigitsValue(ds) as real))
  {
    assert t[1..] == ds;
    DecimalOfDigitsAt(t, 1, true);
  }

  /** A non-empty run of digits reads as the number it spells. */
  lemma NumberOfDigits(s: string)
    requires |s| >= 1 && AllDigits(s)
    ensures StringToNumber(s) == Finite(DigitsValue(s) as real)
  {
    DigitNotSpace(s[0]);
    DigitNotSpace(s[|s| - 1]);
    TrimmedText(s);
    TrimmedDigits(s);
  }

  lemma TrimmedDigits(s: string)
    requires |s| >= 1 && AllDigits(s)
    ensures TrimmedNumber(s) == Finite(DigitsValue(s) as real)
  {
    assert !RadixPrefixed(s) by {
      if |s| > 2 {
        assert IsDigit(s[1]);
      }
    }
    assert s[0..] == s;
    DecimalOfDigitsAt(s, 0, false);
  }

  /** Trimmed text that starts with a digit and has no radix prefix is read as a decimal literal. */
  lemma UnsignedText(t: string)
    requires t != [] && IsDigit(t[0]) && !RadixPrefixed(t)
    ensures TrimmedNumber(t) == DecimalNumber(t, 0, false)
  {
  }

  /** White space before the text is ignored: `Number(" 7")` is `Number("7")`. */
  lemma NumberLeadingSpace(ws: string, s: string)
    requires forall i :: 0 <= i < |ws| ==> IsJsSpace(ws[i])
    ensures StringToNumber(ws + s) == StringToNumber(s)
  {
    TrimStartSpaces(ws, s);
    assert Trim(ws + s) == Trim(s);
  }

  /** A plus sign is allowed: `Number("+7")` is 7. */
  lemma NumberPlusSign(ds: string)
    requires |ds| >= 1 && AllDigits(ds)
    ensures StringToNumber("+" + ds) == Finite(DigitsValue(ds) as real)
  {
    var t := "+" + ds;
    TrimmedPlus(t, ds);
    DigitNotSpace(ds[|ds| - 1]);
    TrimmedText(t);
  }

  lemma TrimmedPlus(t: string, ds: string)
    requires |ds| >= 1 && AllDigits(ds) && t == "+" + ds
    ensures t[|t| - 1] == ds[|ds| - 1]
    ensures TrimmedNumber(t) == Finite(DigitsValue(ds) as real)
  {
    assert t[1..] == ds;
    DecimalOfDigitsAt(t, 1, false);
  }

  /** A decimal with a point reads as its value: `Number("3.0")` is 3. */
  lemma NumberDecimal(ds: string, fs: string)
    requires |ds| >= 1 && AllDigits(ds) && |fs| >= 1 && AllDigits(fs)
    ensures StringToNumber(ds + "." + fs) == Finite(DecimalValue(ds, fs))
  {
    var t := ds + "." + fs;
    TrimmedDecimal(t, ds, fs);
    DigitNotSpace(ds[0]);
    DigitNotSpace(fs[|fs| - 1]);
    TrimmedText(t);
  }

  lemma TrimmedDecimal(t: string, ds: string, fs: string)
    requires |ds| >= 1 && AllDigits(ds) && |fs| >= 1 && AllDigits(fs) && t == ds + "." + fs
    ensures t[0] == ds[0] && t[|t| - 1] == fs[|fs| - 1]
    ensures TrimmedNumber(t) == Finite(DecimalValue(ds, fs))
  {
    assert !RadixPrefixed(t) by {
      if |t| > 2 {
        assert t[1] == if |ds| > 1 then ds[1] else '.';
      }
    }
    UnsignedText(t);
    assert t == ds + "." + fs + "";
    DecimalScan(t, ds, fs, "");
    ExponentAbsent(t, |t|);
    UnsignedFromScan(t, |ds|, |fs|);
    assert t[0..] == t;
  }

  /** `Number("<digits>.0")` is the whole number the digits spell. */
  lemma NumberZeroFraction(ds: string)
    requires |ds| >= 1 && AllDigits(ds)
    ensures StringToNumber(ds + ".0") == Finite(DigitsValue(ds) as real)
  {
    assert ds + ".0" == ds + "." + "0";
    NumberDecimal(ds, "0");
    assert FractionValue("0") == 0.0 by {
      assert "0"[1..] == [];
    }
    DecimalOfDigits(ds);
  }

  /** An exponent scales the number: `Number("1e1")` is 10. */
  lemma NumberExponent(ds: string, es: string)
    requires |ds| >= 1 && AllDigits(ds) && |es| >= 1 && AllDigits(es)
    ensures StringToNumber(ds + "e" + es) == Finite(Scaled(DigitsValue(ds) as real, DigitsValue(es)))
  {
    var t := ds + "e" + es;
    TrimmedExponent(t, ds, es);
    DigitNotSpace(ds[0]);
    DigitNotSpace(es[|es| - 1]);
    TrimmedText(t);
  }

  lemma TrimmedExponent(t: string, ds: string, es: string)
    requires |ds| >= 1 && AllDigits(ds) && |es| >= 1 && AllDigits(es) && t == ds + "e" + es
    ensures t[0] == ds[0] && t[|t| - 1] == es[|es| - 1]
    ensures TrimmedNumber(t) == Finite(Scaled(DigitsValue(ds) as real, DigitsValue(es)))
  {
    assert !RadixPrefixed(t) by {
      if |t| > 2 {
        assert t[1] == if |ds| > 1 then ds[1] else 'e';
      }
    }
    UnsignedText(t);
    ExponentLiteral(t, ds, es);
    DecimalOfLiteral(t, Scaled(DigitsValue(ds) as real, DigitsValue(es)));
  }

  /** Digits, `e` and digits make one literal reaching the end of the text. */
  lemma ExponentLiteral(t: string, ds: string, es: string)
    requires |ds| >= 1 && AllDigits(ds) && |es| >= 1 && AllDigits(es) && t == ds + "e" + es
    ensures LiteralAt(t, 0) == Some((Scaled(DigitsValue(ds) as real, DigitsValue(es)), |t|))
  {
    ExponentLiteralScan(t, ds, es);
    DigitsThenExponent(t, |ds|, 1 + |es|, DigitsValue(es));
  }

  /** Digits, then an exponent with no point between: the literal runs to the exponent's end. */
  lemma DigitsThenExponent(t: string, q: nat, len: nat, k: int)
    requires 0 < q < |t| && DigitRun(t, 0) == q && t[q] == 'e' && FractionLength(t, q) == 0
    requires ExponentAt(t, q) == (len, k) && len > 0
    ensures LiteralAt(t, 0) == Some((Scaled(DecimalValue(t[0..q], ""), k), q + len))
  {
  }

  /** What `LiteralAt` looks at in digits, `e` and digits. */
  lemma ExponentLiteralScan(t: string, ds: string, es: string)
    requires |ds| >= 1 && AllDigits(ds) && |es| >= 1 && AllDigits(es) && t == ds + "e" + es
    ensures DigitRun(t, 0) == |ds| && t[|ds|] == 'e' && FractionLength(t, |ds|) == 0
    ensures ExponentAt(t, |ds|) == (1 + |es|, DigitsValue(es)) && |ds| + 1 + |es| == |t|
    ensures DecimalValue(t[0..|ds|], "") == DigitsValue(ds) as real
  {
    var q := |ds|;
    assert t[0..q] == ds && t[q] == 'e' && t[q..] == "e" + es;
    DigitRunPrefix(t, 0, q);
    ExponentDigits(t, q, es);
    DecimalOfDigits(ds);
  }

  /** Text starting with a digit whose literal reaches the end is read as that literal. */
  lemma DecimalOfLiteral(t: string, v: real)
    requires t != [] && IsDigit(t[0]) && LiteralAt(t, 0) == Some((v, |t|))
    ensures DecimalNumber(t, 0, false) == Finite(v)
  {
    assert t[0..] == t;
  }

  /** A `0x` prefix reads hexadecimal digits: `Number("0x1A")` is 26. */
  lemma NumberHex(hs: string)
    requires |hs| >= 1 && RadixDigits(hs, 16)
    ensures StringToNumber("0x" + hs) == Finite(RadixValue(hs, 16) as real)
  {
    var t := "0x" + hs;
    TrimmedHex(t, hs);
    TrimmedText(t);
  }

  lemma TrimmedHex(t: string, hs: string)
    requires |hs| >= 1 && RadixDigits(hs, 16) && t == "0x" + hs
    ensures t[0] == '0' && !IsJsSpace(t[|t| - 1])
    ensures TrimmedNumber(t) == Finite(RadixValue(hs, 16) as real)
  {
    var last := |hs| - 1;
    assert 0 <= HexDigit(hs[last]);
    assert t[|t| - 1] == hs[last];
    assert t[1] == 'x' && t[2..] == hs;
  }

  /** Text after the number makes it `NaN`: `Number("12px")`. */
  lemma NumberTrailingText(ds: string, rest: string)
    requires |ds| >= 1 && AllDigits(ds) && rest != [] && !IsJsSpace(rest[|rest| - 1])
    requires !IsDigit(rest[0]) && rest[0] != '.' && rest[0] != 'e' && rest[0] != 'E'
    requires |ds| == 1 ==> RadixOf(rest[0]) == 0
    ensures StringToNumber(ds + rest) == NaN
  {
    var t := ds + rest;
    TrimmedTrailing(t, ds, rest);
    DigitNotSpace(ds[0]);
    TrimmedText(t);
  }

  lemma TrimmedTrailing(t: string, ds: string, rest: string)
    requires |ds| >= 1 && AllDigits(ds) && rest != [] && t == ds + rest
    requires !IsDigit(rest[0]) && rest[0] != '.' && rest[0] != 'e' && rest[0] != 'E'
    requires |ds| == 1 ==> RadixOf(rest[0]) == 0
    ensures t[0] == ds[0] && t[|t| - 1] == rest[|rest| - 1]
    ensures TrimmedNumber(t) == NaN
  {
    assert !RadixPrefixed(t) by {
      if |t| > 2 {
        assert t[1] == if |ds| > 1 then ds[1] else rest[0];
      }
    }
    UnsignedText(t);
    assert t[0..|ds|] == ds && t[|ds|] == rest[0];
    DigitRunPrefix(t, 0, |ds|);
    assert t[0..] == t;
  }

  /** A sign cannot precede a radix prefix: `Number("-0x1A")` is `NaN`. */
  lemma NumberSignedHex(hs: string)
    requires |hs| >= 1 && RadixDigits(hs, 16)
    ensures StringToNumber("-0x" + hs) == NaN
  {
    var t := "-0x" + hs;
    TrimmedSignedHex(t, hs);
    TrimmedText(t);
  }

  lemma TrimmedSignedHex(t: string, hs: string)
    requires |hs| >= 1 && RadixDigits(hs, 16) && t == "-0x" + hs
    ensures t[0] == '-' && !IsJsSpace(t[|t| - 1])
    ensures TrimmedNumber(t) == NaN
  {
    var last := |hs| - 1;
    assert 0 <= HexDigit(hs[last]);
    assert t[|t| - 1] == hs[last];
    assert t[1..2] == "0" && t[2] == 'x';
    DigitRunPrefix(t, 1, 1);
    assert t[1] == '0';
  }
}

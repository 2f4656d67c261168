/**
 * String helpers shared by the modules: decimal digits, the white space that
 * JavaScript's `trim()` and the regular-expression class `\s` remove, number
 * formatting as `String(n)` does it, `padStart(2, '0')`, `indexOf` and `split`.
 */
module Text {

  predicate IsDigit(c: char) {
    '0' <= c <= '9'
  }

  function DigitValue(c: char): (v: nat)
    requires IsDigit(c)
    ensures v < 10
  {
    (c as int) - ('0' as int)
  }

  function DigitChar(d: nat): (c: char)
    requires d < 10
    ensures IsDigit(c) && DigitValue(c) == d
  {
    (('0' as int) + d) as char
  }

  predicate AllDigits(s: string) {
    forall i :: 0 <= i < |s| ==> IsDigit(s[i])
  }

  /** Value of a string of decimal digits, most significant first ("" has value 0). */
  function DigitsValue(s: string): nat
    requires AllDigits(s)
    decreases |s|
  {
    if s == [] then 0 else DigitsValue(s[..|s| - 1]) * 10 + DigitValue(s[|s| - 1])
  }

  /** `String(n)` for a non-negative integer: no sign, no leading zeros. */
  function NatToString(n: nat): (s: string)
    ensures 1 <= |s| && AllDigits(s)
    ensures |s| > 1 ==> s[0] != '0'
  {
    if n < 10 then [DigitChar(n)] else NatToString(n / 10) + [DigitChar(n % 10)]
  }

  lemma {:induction false} NatToStringRoundTrip(n: nat)
    ensures DigitsValue(NatToString(n)) == n
  {
    if n >= 10 {
      NatToStringRoundTrip(n / 10);
      var s := NatToString(n);
      assert s[..|s| - 1] == NatToString(n / 10);
    }
  }

  /** `String(i)` for an integer. */
  function IntToString(i: int): (s: string)
    ensures 1 <= |s|
  {
    if i < 0 then "-" + NatToString(-i) else NatToString(i)
  }

  /** `s.padStart(2, '0')`. */
  function PadStart2(s: string): (r: string)
    decreases 2 - |s|
    ensures |s| >= 2 ==> r == s
    ensures |s| < 2 ==> |r| == 2 && r[2 - |s|..] == s
    ensures forall i :: 0 <= i < |r| - |s| ==> r[i] == '0'
  {
    if |s| >= 2 then s else PadStart2("0" + s)
  }

  /** Two-digit zero-padded form of a number below 100, as `String(n).padStart(2, '0')`. */
  lemma {:induction false} PadStart2Small(n: nat)
    requires n < 100
    ensures |PadStart2(NatToString(n))| == 2
    ensures AllDigits(PadStart2(NatToString(n)))
    ensures DigitsValue(PadStart2(NatToString(n))) == n
  {
    var p := PadStart2(NatToString(n));
    NatToStringRoundTrip(n);
    if n < 10 {
      assert p == ['0', DigitChar(n)];
      assert p[..1] == ['0'];
    } else {
      assert NatToString(n / 10) == [DigitChar(n / 10)];
      assert p == [DigitChar(n / 10), DigitChar(n % 10)];
      assert p[..1] == [DigitChar(n / 10)];
    }
  }

  /** `s` ends with the separator `sep` and two digits that spell `n`. */
  predicate EndsWithTwoDigits(s: string, sep: string, n: nat) {
    && |s| >= |sep| + 2 && s[|s| - 2 - |sep|..|s| - 2] == sep
    && AllDigits(s[|s| - 2..]) && DigitsValue(s[|s| - 2..]) == n
  }

  /** A number below 100 padded to two digits after a separator ends the text, and the text before it is kept. */
  lemma PaddedTail(prefix: string, sep: string, n: nat)
    requires n < 100
    ensures var s := prefix + sep + PadStart2(NatToString(n));
            EndsWithTwoDigits(s, sep, n) && s[..|s| - 2 - |sep|] == prefix
  {
    PadStart2Small(n);
    var p := PadStart2(NatToString(n));
    var s := prefix + sep + p;
    assert s[|s| - 2..] == p;
    assert s[|s| - 2 - |sep|..|s| - 2] == sep;
    assert s[..|s| - 2 - |sep|] == prefix;
  }

  /** The characters JavaScript treats as white space (`\s`, `String.prototype.trim`). */
  predicate IsJsSpace(c: char) {
    || c == '\t' || c == '\n' || c == '\U{000B}' || c == '\U{000C}' || c == '\r' || c == ' '
    || c == '\U{00A0}' || c == '\U{1680}' || ('\U{2000}' <= c <= '\U{200A}')
    || c == '\U{2028}' || c == '\U{2029}' || c == '\U{202F}' || c == '\U{205F}'
    || c == '\U{3000}' || c == '\U{FEFF}'
  }

  function TrimStart(s: string): (r: string)
    ensures |r| <= |s| && r == s[|s| - |r|..]
    ensures forall i :: 0 <= i < |s| - |r| ==> IsJsSpace(s[i])
    ensures r != [] ==> !IsJsSpace(r[0])
  {
    if s != [] && IsJsSpace(s[0]) then
      var r := TrimStart(s[1..]);
      assert s[1..][|s| - 1 - |r|..] == s[|s| - |r|..];
      r
    else s
  }

  function TrimEnd(s: string): (r: string)
    ensures |r| <= |s| && r == s[..|r|]
    ensures forall i :: |r| <= i < |s| ==> IsJsSpace(s[i])
    ensures r != [] ==> !IsJsSpace(r[|r| - 1])
  {
    if s != [] && IsJsSpace(s[|s| - 1]) then
      var r := TrimEnd(s[..|s| - 1]);
      assert s[..|s| - 1][..|r|] == s[..|r|];
      r
    else s
  }

  /** `s.trim()`: the longest infix of `s` that neither starts nor ends with white space. */
  function Trim(s: string): (r: string)
    ensures r != [] ==> !IsJsSpace(r[0]) && !IsJsSpace(r[|r| - 1])
  {
    var t := TrimStart(s);
    var r := TrimEnd(t);
    assert r != [] ==> r[0] == t[0];
    r
  }

  /** Leading white space is all that `trimStart` removes. */
  lemma {:induction false} TrimStartSpaces(ws: string, s: string)
    requires forall i :: 0 <= i < |ws| ==> IsJsSpace(ws[i])
    ensures TrimStart(ws + s) == TrimStart(s)
  {
    if ws != [] {
      var t := ws + s;
      assert t[0] == ws[0] && t[1..] == ws[1..] + s;
      assert TrimStart(t) == TrimStart(t[1..]);
      TrimStartSpaces(ws[1..], s);
    } else {
      assert ws + s == s;
    }
  }

  /** A text trims to nothing exactly when it is all white space. */
  lemma TrimEmpty(s: string)
    ensures Trim(s) == [] <==> forall i :: 0 <= i < |s| ==> IsJsSpace(s[i])
  {
    var t := TrimStart(s);
    assert Trim(s) == TrimEnd(t);
  }

  /** `s.indexOf(c)`: the first position of `c`, or -1. */
  function IndexOf(s: string, c: char): (r: int)
    ensures r == -1 <==> c !in s
    ensures r != -1 ==> 0 <= r < |s| && s[r] == c && c !in s[..r]
  {
    if s == [] then -1
    else if s[0] == c then 0
    else
      var k := IndexOf(s[1..], c);
      assert s[1..][..k + 1] == s[1..k + 2] by {}
      if k == -1 then -1 else k + 1
  }

  /** `s.split(c)` for a one-character separator: every piece, empty ones included. */
  function Split(s: string, c: char): (parts: seq<string>)
    ensures |parts| >= 1
    ensures forall i :: 0 <= i < |parts| ==> c !in parts[i]
    decreases |s|
  {
    var k := IndexOf(s, c);
    if k == -1 then [s] else [s[..k]] + Split(s[k + 1..], c)
  }

  /** `parts.join(c)`, the inverse of `Split`. */
  function Join(parts: seq<string>, c: char): string
    requires |parts| >= 1
  {
    if |parts| == 1 then parts[0] else parts[0] + [c] + Join(parts[1..], c)
  }

  lemma {:induction false} SplitJoin(s: string, c: char)
    ensures Join(Split(s, c), c) == s
    decreases |s|
  {
    var k := IndexOf(s, c);
    if k != -1 {
      var rest := Split(s[k + 1..], c);
      assert Join(Split(s, c), c) == s[..k] + [c] + Join(rest, c) by {
        JoinCons(s[..k], rest, c);
      }
      SplitJoin(s[k + 1..], c);
      assert s == s[..k] + [c] + s[k + 1..] by {
        SplitAround(s, k);
      }
    }
  }

  lemma SplitAround(s: string, k: nat)
    requires k < |s|
    ensures s == s[..k] + [s[k]] + s[k + 1..]
  {
  }

  lemma JoinCons(a: string, rest: seq<string>, c: char)
    requires |rest| >= 1
    ensures Join([a] + rest, c) == a + [c] + Join(rest, c)
  {
    assert ([a] + rest)[1..] == rest;
  }

  lemma {:induction false} JoinSplit(parts: seq<string>, c: char)
    requires |parts| >= 1
    requires forall i :: 0 <= i < |parts| ==> c !in parts[i]
    ensures Split(Join(parts, c), c) == parts
  {
    if |parts| > 1 {
      JoinSplit(parts[1..], c);
      SplitCons(parts[0], c, Join(parts[1..], c));
      assert parts == [parts[0]] + parts[1..];
    }
  }

  /** A separator-free piece, the separator and a rest split into that piece and the pieces of the rest. */
  lemma SplitCons(a: string, c: char, rest: string)
    requires c !in a
    ensures Split(a + [c] + rest, c) == [a] + Split(rest, c)
  {
    SplitAtFirst(a, c, rest);
  }

  /** The first separator of `a + [c] + rest`, with `c` not in `a`, is the one after `a`. */
  lemma SplitAtFirst(a: string, c: char, rest: string)
    requires c !in a
    ensures var s := a + [c] + rest;
            IndexOf(s, c) == |a| && s[..|a|] == a && s[|a| + 1..] == rest
  {
    var s := a + [c] + rest;
    assert s[|a|] == c;
    assert s[..|a|] == a;
  }

  /** Three pieces free of the separator, joined by it, split back into those pieces. */
  lemma SplitThree(a: string, b: string, c: string, sep: char)
    requires sep !in a && sep !in b && sep !in c
    ensures Split(a + [sep] + b + [sep] + c, sep) == [a, b, c]
  {
    var parts := [a, b, c];
    assert parts[1..] == [b, c] && parts[1..][1..] == [c];
    assert Join([c], sep) == c;
    assert Join([b, c], sep) == b + [sep] + c;
    assert Join(parts, sep) == a + [sep] + (b + [sep] + c);
    assert a + [sep] + (b + [sep] + c) == a + [sep] + b + [sep] + c;
    JoinSplit(parts, sep);
  }

  /** A separator that is not a digit does not occur in a string of digits. */
  lemma NoSeparatorInDigits(s: string, c: char)
    requires AllDigits(s) && !IsDigit(c)
    ensures c !in s
  {
    forall i | 0 <= i < |s| ensures s[i] != c {
      assert IsDigit(s[i]);
    }
  }
}

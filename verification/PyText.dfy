/** The Python string operations the parsers rely on: `str.strip`,
    `str.splitlines`, `int()`, `float()`, and the number formats they undo. */
module PyText {
  import opened Common

  // ------------------------------------------------------------ white space and lines

  /** `str.isspace` for one character. */
  predicate IsSpace(c: char) {
    || '\t' <= c <= '\r' || '\U{1c}' <= c <= ' ' || c == '\U{85}' || c == '\U{a0}' || c == '\U{1680}'
    || '\U{2000}' <= c <= '\U{200a}' || c == '\U{2028}' || c == '\U{2029}' || c == '\U{202f}'
    || c == '\U{205f}' || c == '\U{3000}'
  }

  /** Where `str.splitlines` cuts. */
  predicate IsLineBreak(c: char) {
    '\n' <= c <= '\r' || '\U{1c}' <= c <= '\U{1e}' || c == '\U{85}' || c == '\U{2028}' || c == '\U{2029}'
  }

  function LStrip(s: string): (r: string)
    ensures |r| <= |s| && s[|s| - |r|..] == r
    ensures r != "" ==> !IsSpace(r[0])
  {
    if s == "" then "" else if IsSpace(s[0]) then LStrip(s[1..]) else s
  }

  function RStrip(s: string): (r: string)
    ensures r <= s
    ensures r != "" ==> !IsSpace(r[|r| - 1])
    ensures forall i :: |r| <= i < |s| ==> IsSpace(s[i])
  {
    if s == "" then "" else if IsSpace(s[|s| - 1]) then RStrip(s[..|s| - 1]) else s
  }

  function Strip(s: string): (r: string)
    ensures |r| <= |s|
    ensures r != "" ==> !IsSpace(r[0]) && !IsSpace(r[|r| - 1])
  {
    RStrip(LStrip(s))
  }

  /** A line that `strip` leaves alone and `splitlines` does not cut. */
  predicate CleanLine(s: string) {
    s != "" && !IsSpace(s[0]) && !IsSpace(s[|s| - 1]) && forall c :: c in s ==> !IsLineBreak(c)
  }

  lemma StripClean(s: string)
    requires s != "" && !IsSpace(s[0]) && !IsSpace(s[|s| - 1])
    ensures Strip(s) == s
  {
  }

  /** Index of the first character satisfying `p`, or the length. */
  function FirstBreak(s: string): (k: nat)
    ensures k <= |s| && (k < |s| ==> IsLineBreak(s[k]))
    ensures forall i :: 0 <= i < k ==> !IsLineBreak(s[i])
  {
    if s == "" || IsLineBreak(s[0]) then 0 else 1 + FirstBreak(s[1..])
  }

  /** `[line.strip() for line in text.splitlines() if line.strip()]`. A CR LF pair
      is cut twice here; the empty line in between is dropped like any other. */
  function NonblankLines(text: string): seq<string>
    decreases |text|
  {
    var k := FirstBreak(text);
    var line := Strip(text[..k]);
    var rest := if k < |text| then NonblankLines(text[k + 1..]) else [];
    if line == "" then rest else [line] + rest
  }

  /** `"\n".join(lines) + "\n"`. */
  function JoinLines(lines: seq<string>): string {
    if lines == [] then "" else lines[0] + "\n" + JoinLines(lines[1..])
  }

  lemma {:induction false} JoinLinesConcat(a: seq<string>, b: seq<string>)
    ensures JoinLines(a + b) == JoinLines(a) + JoinLines(b)
  {
    if a == [] {
      assert a + b == b;
    } else {
      assert (a + b)[1..] == a[1..] + b;
      JoinLinesConcat(a[1..], b);
    }
  }

  lemma FirstLine(line: string, rest: string)
    requires CleanLine(line)
    ensures NonblankLines(line + "\n" + rest) == [line] + NonblankLines(rest)
  {
    var text := line + "\n" + rest;
    assert text[|line|] == '\n';
    assert forall i :: 0 <= i < |line| ==> text[i] == line[i] && line[i] in line;
    assert FirstBreak(text) == |line|;
    assert text[..|line|] == line && text[|line| + 1..] == rest;
    StripClean(line);
  }

  /** Reading back what was joined gives the same lines. */
  lemma {:induction false} LinesOfJoined(lines: seq<string>)
    requires forall k :: 0 <= k < |lines| ==> CleanLine(lines[k])
    ensures NonblankLines(JoinLines(lines)) == lines
  {
    if lines != [] {
      LinesOfJoined(lines[1..]);
      FirstLine(lines[0], JoinLines(lines[1..]));
      assert JoinLines(lines) == lines[0] + "\n" + JoinLines(lines[1..]);
    }
  }

  // ------------------------------------------------------------ searching

  /** `s.find(c)`, with the length for "not there". */
  function Find(s: string, c: char): (k: nat)
    ensures k <= |s| && (k < |s| ==> s[k] == c)
    ensures forall i :: 0 <= i < k ==> s[i] != c
  {
    if s == "" || s[0] == c then 0 else 1 + Find(s[1..], c)
  }

  lemma FindAfter(a: string, c: char, b: string)
    requires c !in a
    ensures Find(a + [c] + b, c) == |a|
  {
    var s := a + [c] + b;
    assert s[|a|] == c;
    assert forall i :: 0 <= i < |a| ==> s[i] == a[i] && a[i] in a;
  }

  lemma FindNone(a: string, c: char)
    requires c !in a
    ensures Find(a, c) == |a|
  {
  }

  predicate StartsWith(s: string, prefix: string) {
    |prefix| <= |s| && s[..|prefix|] == prefix
  }

  /** `s.removeprefix(prefix)`. */
  function RemovePrefix(s: string, prefix: string): string {
    if StartsWith(s, prefix) then s[|prefix|..] else s
  }

  function LowerChar(c: char): char { if 'A' <= c <= 'Z' then c - 'A' + 'a' else c }
  function UpperChar(c: char): char { if 'a' <= c <= 'z' then c - 'a' + 'A' else c }
  function Lower(s: string): string { seq(|s|, i requires 0 <= i < |s| => LowerChar(s[i])) }
  function Upper(s: string): string { seq(|s|, i requires 0 <= i < |s| => UpperChar(s[i])) }

  // ------------------------------------------------------------ numerals

  type Base = b: int | b == 10 || b == 16 witness 10

  function Times(base: Base, x: int): int { if base == 16 then 16 * x else 10 * x }
  function Quotient(n: nat, base: Base): nat { if base == 16 then n / 16 else n / 10 }
  function Remainder(n: nat, base: Base): nat { if base == 16 then n % 16 else n % 10 }

  function DigitChar(d: nat): (c: char)
    requires d < 16
    ensures IsDigit(c, 16) && DigitValue(c) == d && !IsSpace(c)
    ensures d < 10 ==> IsDigit(c, 10)
    ensures PrintedDigit(c, if d < 10 then 10 else 16)
  {
    if d < 10 then '0' + d as char else 'a' + (d - 10) as char
  }

  predicate IsDigit(c: char, base: Base) {
    '0' <= c <= '9' || (base == 16 && ('a' <= c <= 'f' || 'A' <= c <= 'F'))
  }

  function DigitValue(c: char): nat {
    if '0' <= c <= '9' then (c - '0') as int
    else if 'a' <= c <= 'f' then (c - 'a') as int + 10
    else if 'A' <= c <= 'F' then (c - 'A') as int + 10
    else 0
  }

  predicate AllDigits(s: string, base: Base) { forall i :: 0 <= i < |s| ==> IsDigit(s[i], base) }

  function Pow(base: Base, k: nat): (p: nat)
    ensures p > 0
  {
    if k == 0 then 1 else Times(base, Pow(base, k - 1))
  }

  /** `int(s, base)` for a string of digits. */
  function Value(s: string, base: Base): nat {
    if s == "" then 0 else Times(base, Value(s[..|s| - 1], base)) + DigitValue(s[|s| - 1])
  }

  predicate PrintedDigit(c: char, base: Base) { '0' <= c <= '9' || (base == 16 && 'a' <= c <= 'f') }

  /** `format(n, "0<width>d")` or `"0<width>x"`: at least `width` digits. */
  function Numeral(n: nat, base: Base, width: nat): (s: string)
    ensures s != "" && |s| >= width
    ensures forall i :: 0 <= i < |s| ==> PrintedDigit(s[i], base)
    decreases n + width
  {
    if n < base && width <= 1 then [DigitChar(n)]
    else
      Numeral(Quotient(n, base), base, if width == 0 then 0 else width - 1) + [DigitChar(Remainder(n, base))]
  }

  /** Reading back a printed number. */
  lemma {:induction false} NumeralValue(n: nat, base: Base, width: nat)
    ensures AllDigits(Numeral(n, base, width), base)
    ensures Value(Numeral(n, base, width), base) == n
    decreases n + width
  {
    var s := Numeral(n, base, width);
    assert forall i :: 0 <= i < |s| ==> PrintedDigit(s[i], base);
    if n >= base || width > 1 {
      var m, w := Quotient(n, base), if width == 0 then 0 else width - 1;
      NumeralValue(m, base, w);
      assert s[..|s| - 1] == Numeral(m, base, w);
    }
  }

  /** A number below `base^width` takes exactly `width` digits. */
  lemma {:induction false} NumeralWidth(n: nat, base: Base, width: nat)
    requires width > 0 && n < Pow(base, width)
    ensures |Numeral(n, base, width)| == width
    decreases width
  {
    if width > 1 {
      NumeralWidth(Quotient(n, base), base, width - 1);
    }
  }

  lemma {:induction false} ValueBound(s: string, base: Base)
    requires AllDigits(s, base)
    ensures Value(s, base) < Pow(base, |s|)
  {
    if s != "" {
      var front := s[..|s| - 1];
      ValueBound(front, base);
    }
  }

  // ------------------------------------------------------------ int()

  function ParseUnsignedInt(s: string): Option<int> {
    if s != "" && AllDigits(s, 10) then Some(Value(s, 10)) else None
  }

  function Negated(v: Option<int>): Option<int> { if v.Some? then Some(-v.value) else None }

  function ParseSignedInt(s: string): Option<int> {
    if s != "" && s[0] == '-' then Negated(ParseUnsignedInt(s[1..]))
    else if s != "" && s[0] == '+' then ParseUnsignedInt(s[1..])
    else ParseUnsignedInt(s)
  }

  /** `int(s)`, None for `ValueError`. */
  function ParseInt(s: string): Option<int> { ParseSignedInt(Strip(s)) }

  // ------------------------------------------------------------ float()

  function Scale(m: real, exponent: int): real {
    if exponent >= 0 then m * Pow(10, exponent) as real else m / Pow(10, -exponent) as real
  }

  function Decimal(whole: string, frac: string): real {
    Value(whole, 10) as real + Scale(Value(frac, 10) as real, -|frac|)
  }

  function ParseMantissa(s: string): Option<real> {
    var dot := Find(s, '.');
    var frac := if dot < |s| then s[dot + 1..] else "";
    if AllDigits(s[..dot], 10) && AllDigits(frac, 10) && dot + |frac| > 0 then
      Some(Decimal(s[..dot], frac))
    else None
  }

  function ParseUnsignedFloat(s: string): Option<real> {
    var e := if Find(s, 'e') <= Find(s, 'E') then Find(s, 'e') else Find(s, 'E');
    if e == |s| then ParseMantissa(s)
    else
      match (ParseMantissa(s[..e]), ParseSignedInt(s[e + 1..]))
      case (Some(m), Some(x)) => Some(Scale(m, x))
      case _ => None
  }

  /** A leading sign and what follows it. */
  function SplitSign(t: string): (bool, string) {
    if t != "" && t[0] == '-' then (true, t[1..])
    else if t != "" && t[0] == '+' then (false, t[1..])
    else (false, t)
  }

  function WithSign(negative: bool, v: Option<real>): Option<real> {
    if negative && v.Some? then Some(-v.value) else v
  }

  /** `float(s)` over the decimal grammar, None for `ValueError`. */
  function ParseFloat(s: string): Option<real> {
    var (negative, u) := SplitSign(Strip(s));
    WithSign(negative, ParseUnsignedFloat(u))
  }

  /** Rounding to the nearest integer, ties to even. */
  function RoundHalfEven(x: real): (r: int)
    ensures -0.5 <= r as real - x <= 0.5
    ensures (r as real - x == 0.5 || r as real - x == -0.5) ==> r % 2 == 0
  {
    var f := x.Floor;
    var d := x - f as real;
    if d < 0.5 then f else if d > 0.5 then f + 1 else if f % 2 == 0 then f else f + 1
  }

  /** `x` in millionths, as `format(x, ".6f")` rounds it. */
  function Micros(x: real): nat {
    var scaled := (if x < 0.0 then -x else x) * 1000000.0;
    var r := RoundHalfEven(scaled);
    if r < 0 then 0 else r
  }

  /** The value `format(x, ".6f")` shows. */
  function Rounded6(x: real): real {
    var m := Micros(x) as real / 1000000.0;
    if x < 0.0 then -m else m
  }

  /** `format(x, ".6f")`. */
  function Fixed6(x: real): string {
    (if x < 0.0 then "-" else "") + Millionths(Micros(x))
  }

  lemma Rounded6Near(x: real)
    ensures -0.0000005 <= Rounded6(x) - x <= 0.0000005
    ensures Rounded6(Rounded6(x)) == Rounded6(x)
  {
    var m := Micros(x);
    var y := Rounded6(x);
    assert (if y < 0.0 then -y else y) * 1000000.0 == m as real;
    assert Micros(y) == m;
  }

  lemma DigitsHaveNoDot(s: string)
    requires AllDigits(s, 10)
    ensures '.' !in s
  {
  }

  /** Reading a number printed with a decimal point. */
  lemma MantissaOf(a: string, b: string)
    requires a != "" && AllDigits(a, 10) && AllDigits(b, 10)
    ensures ParseMantissa(a + "." + b) == Some(Decimal(a, b))
  {
    var s := a + "." + b;
    DigitsHaveNoDot(a);
    FindAfter(a, '.', b);
    hide Value, Scale;
    assert Find(s, '.') == |a|;
    assert s[..|a|] == a;
    assert s[|a| + 1..] == b;
    assert |a| < |s| && |a| + |b| > 0;
  }

  lemma PlainFloat(s: string)
    requires forall i :: 0 <= i < |s| ==> '0' <= s[i] <= '9' || s[i] == '.'
    ensures ParseUnsignedFloat(s) == ParseMantissa(s)
  {
    FindNone(s, 'e');
    FindNone(s, 'E');
  }

  lemma MillionthsAdd(m: nat)
    ensures (m / 1000000) as real + Scale((m % 1000000) as real, -6) == m as real / 1000000.0
  {
    assert Pow(10, 6) == 1000000 by {
      assert Pow(10, 3) == 1000;
      assert Pow(10, 6) == 10 * (10 * (10 * Pow(10, 3)));
    }
    assert m == 1000000 * (m / 1000000) + m % 1000000;
    assert m as real == 1000000.0 * (m / 1000000) as real + (m % 1000000) as real;
  }

  lemma SixDigits(m: nat)
    requires m < 1000000
    ensures |Numeral(m, 10, 6)| == 6
  {
    assert Pow(10, 6) == 1000000 by {
      assert Pow(10, 3) == 1000;
      assert Pow(10, 6) == 10 * (10 * (10 * Pow(10, 3)));
    }
    NumeralWidth(m, 10, 6);
  }

  lemma SignedText(u: string, negative: bool)
    requires u != "" && forall i :: 0 <= i < |u| ==> '0' <= u[i] <= '9' || u[i] == '.'
    ensures SplitSign(Strip((if negative then "-" else "") + u)) == (negative, u)
  {
    if negative {
      var s := "-" + u;
      assert s[|s| - 1] == u[|u| - 1] && s[1..] == u;
      StripClean(s);
      assert SplitSign(s) == (true, u);
    } else {
      assert "" + u == u && u[0] != '-' && u[0] != '+';
      StripClean(u);
      assert SplitSign(u) == (false, u);
    }
  }

  /** `format(m / 10**6, ".6f")` without its sign. */
  function Millionths(m: nat): (s: string)
    ensures s != "" && forall i :: 0 <= i < |s| ==> '0' <= s[i] <= '9' || s[i] == '.'
  {
    Numeral(m / 1000000, 10, 1) + "." + Numeral(m % 1000000, 10, 6)
  }

  lemma ParseMillionths(m: nat)
    ensures ParseUnsignedFloat(Millionths(m)) == Some(m as real / 1000000.0)
  {
    hide Numeral, Value, Scale, ParseMantissa, ParseUnsignedFloat;
    var a, b := Numeral(m / 1000000, 10, 1), Numeral(m % 1000000, 10, 6);
    NumeralValue(m / 1000000, 10, 1);
    NumeralValue(m % 1000000, 10, 6);
    SixDigits(m % 1000000);
    MillionthsAdd(m);
    assert Decimal(a, b) == m as real / 1000000.0;
    MantissaOf(a, b);
    PlainFloat(a + "." + b);
  }

  lemma SignedFloat(u: string, negative: bool, v: real)
    requires u != "" && forall i :: 0 <= i < |u| ==> '0' <= u[i] <= '9' || u[i] == '.'
    requires ParseUnsignedFloat(u) == Some(v)
    ensures ParseFloat((if negative then "-" else "") + u) == Some(if negative then -v else v)
  {
    SignedText(u, negative);
  }

  lemma SixDecimals(m: nat, negative: bool)
    ensures ParseFloat((if negative then "-" else "") + Millionths(m))
            == Some(if negative then -(m as real / 1000000.0) else m as real / 1000000.0)
  {
    hide *;
    ParseMillionths(m);
    SignedFloat(Millionths(m), negative, m as real / 1000000.0);
  }

  /** Reading back a six-decimal number gives the rounded value. */
  lemma ParseFixed6(x: real)
    ensures ParseFloat(Fixed6(x)) == Some(Rounded6(x))
  {
    hide ParseFloat, Millionths, Micros;
    SixDecimals(Micros(x), x < 0.0);
  }
}

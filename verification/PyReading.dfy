/** What the Python string operations do with any text: `str.strip`, the lines of a text, and which
    texts `int()` and `float()` read as which number. */
module PyReading {
  import opened Common
  import opened PyText

  // ------------------------------------------------------------ strip and lines

  ghost predicate Blank(s: string) { forall c :: c in s ==> IsSpace(c) }

  ghost predicate Solid(s: string) { s == "" || (!IsSpace(s[0]) && !IsSpace(s[|s| - 1])) }

  lemma BlankParts(s: string)
    requires Blank(s) && s != ""
    ensures IsSpace(s[0]) && Blank(s[1..]) && IsSpace(s[|s| - 1]) && Blank(s[..|s| - 1])
  {
    assert s[0] in s && s[|s| - 1] in s;
  }

  lemma {:induction false} LeftBlank(a: string, s: string)
    requires Blank(a)
    ensures LStrip(a + s) == LStrip(s)
  {
    hide LStrip, IsSpace, Blank;
    if a == "" {
      assert a + s == s;
    } else {
      BlankParts(a);
      LeftBlank(a[1..], s);
      FirstBlank(a[0], a[1..] + s);
      assert a + s == [a[0]] + (a[1..] + s);
    }
  }

  lemma FirstBlank(c: char, s: string)
    requires IsSpace(c)
    ensures LStrip([c] + s) == LStrip(s)
  {
    assert ([c] + s)[1..] == s;
  }

  lemma {:induction false} RightBlank(s: string, b: string)
    requires Blank(b)
    ensures RStrip(s + b) == RStrip(s)
  {
    hide RStrip, IsSpace, Blank;
    if b == "" {
      assert s + b == s;
    } else {
      var n := |b| - 1;
      BlankParts(b);
      RightBlank(s, b[..n]);
      LastBlank(s + b[..n], b[n]);
      assert s + b == (s + b[..n]) + [b[n]];
    }
  }

  lemma LastBlank(s: string, c: char)
    requires IsSpace(c)
    ensures RStrip(s + [c]) == RStrip(s)
  {
    assert (s + [c])[..|s|] == s;
  }

  /** White space at both ends goes, and nothing else. */
  lemma WhatStripKeeps(a: string, s: string, b: string)
    requires Blank(a) && Blank(b) && Solid(s)
    ensures Strip(a + s + b) == s
  {
    hide LStrip, RStrip, IsSpace, Blank;
    assert a + s + b == a + (s + b);
    LeftBlank(a, s + b);
    if s == "" {
      assert s + b == b && b + "" == b;
      LeftBlank(b, "");
      NothingToStrip("");
    } else {
      NothingToStrip(s + b);
      RightBlank(s, b);
      RightSolid(s);
    }
  }

  lemma NothingToStrip(s: string)
    requires s == "" || !IsSpace(s[0])
    ensures LStrip(s) == s && RStrip("") == ""
  {
  }

  lemma RightSolid(s: string)
    requires s != "" && !IsSpace(s[|s| - 1])
    ensures RStrip(s) == s
  {
  }

  ghost predicate OneLine(s: string) { forall c :: c in s ==> !IsLineBreak(c) }

  ghost function Line(s: string): seq<string> { if Strip(s) == "" then [] else [Strip(s)] }

  /** The lines of a text are the stripped stretches between its line breaks that are not empty. */
  lemma WhatTheLinesAre(a: string, c: char, b: string)
    requires OneLine(a) && IsLineBreak(c)
    ensures NonblankLines(a) == Line(a)
    ensures NonblankLines(a + [c] + b) == Line(a) + NonblankLines(b)
  {
    hide Strip;
    assert forall i :: 0 <= i < |a| ==> a[i] in a;
    assert FirstBreak(a) == |a| && a[..|a|] == a;
    var s := a + [c] + b;
    assert s[|a|] == c && forall i :: 0 <= i < |a| ==> s[i] == a[i];
    assert FirstBreak(s) == |a| && s[..|a|] == a && s[|a| + 1..] == b;
  }

  // ------------------------------------------------------------ int()

  function Signed(negative: bool, n: int): int { if negative then 0 - n else n }

  ghost predicate Digits(s: string) { s != "" && forall i :: 0 <= i < |s| ==> '0' <= s[i] <= '9' }

  /** A text is read as a number exactly when it is digits, with a sign or without, between white
      space; the number is then the one the digits stand for. */
  lemma WhatIntReads(s: string, n: int)
    ensures ParseInt(s) == Some(n) <==>
              exists sign, digits :: Strip(s) == sign + digits && sign in ["", "+", "-"] && Digits(digits)
                                     && n == Signed(sign == "-", Value(digits, 10))
    ensures ParseInt("+" + Numeral(Max(n, 0), 10, 1)) == Some(Max(n, 0))
    ensures ParseInt("-" + Numeral(Max(n, 0), 10, 1)) == Some(0 - Max(n, 0))
  {
    hide Strip, Value, Numeral;
    var t := Strip(s);
    if ParseInt(s) == Some(n) {
      var sign := if t[0] == '-' then "-" else if t[0] == '+' then "+" else "";
      var digits := t[|sign|..];
      assert t == sign + digits && Digits(digits);
    }
    forall sign: string, digits: string | t == sign + digits && sign in ["", "+", "-"] && Digits(digits)
      ensures ParseInt(s) == Some(Signed(sign == "-", Value(digits, 10)))
    {
      SignedInt(sign, digits);
    }
    PrintedInt("+", Max(n, 0));
    PrintedInt("-", Max(n, 0));
  }

  lemma SignedInt(sign: string, digits: string)
    requires sign in ["", "+", "-"] && Digits(digits)
    ensures ParseSignedInt(sign + digits) == Some(Signed(sign == "-", Value(digits, 10)))
  {
    hide Value;
    var t := sign + digits;
    if sign == "" {
      assert t == digits && t[0] != '-' && t[0] != '+';
    } else {
      assert t[0] == sign[0] && t[1..] == digits;
    }
  }

  lemma PrintedInt(sign: string, n: nat)
    requires sign in ["+", "-"]
    ensures ParseInt(sign + Numeral(n, 10, 1)) == Some(Signed(sign == "-", n))
  {
    hide Numeral, Strip, Value;
    var digits := Numeral(n, 10, 1);
    NumeralValue(n, 10, 1);
    assert forall i :: 0 <= i < |digits| ==> PrintedDigit(digits[i], 10);
    var t := sign + digits;
    assert t[0] == sign[0] && t[|t| - 1] == digits[|digits| - 1];
    StripClean(t);
    SignedInt(sign, digits);
  }

  lemma UnsignedInt(n: nat)
    ensures ParseInt(Numeral(n, 10, 1)) == Some(n)
  {
    hide Numeral, Strip, Value;
    var digits := Numeral(n, 10, 1);
    NumeralValue(n, 10, 1);
    assert forall i :: 0 <= i < |digits| ==> PrintedDigit(digits[i], 10);
    StripClean(digits);
    assert "" + digits == digits;
    SignedInt("", digits);
  }

  /** A printed number has no more digits than it needs. */
  lemma {:induction false} NoLeadingZero(n: nat, width: nat)
    requires width <= 1
    ensures n == 0 ==> Numeral(n, 10, width) == "0"
    ensures n > 0 ==> '1' <= Numeral(n, 10, width)[0] <= '9'
    decreases n
  {
    if n >= 10 {
      NoLeadingZero(n / 10, 0);
    }
  }

  // ------------------------------------------------------------ float()

  ghost predicate AnyDigits(s: string) { forall i :: 0 <= i < |s| ==> '0' <= s[i] <= '9' }

  /** The number that digits before and after a point stand for. */
  ghost function Fraction(whole: string, frac: string): real {
    Value(whole, 10) as real + Value(frac, 10) as real / Pow(10, |frac|) as real
  }

  /** A decimal number, with or without a point, has the value its digits stand for; a leading minus
      negates it. */
  lemma WhatFloatReads(whole: string, point: string, frac: string, negative: bool)
    requires AnyDigits(whole) && AnyDigits(frac) && whole + frac != ""
    requires point == "." || (point == "" && frac == "")
    ensures ParseFloat((if negative then "-" else "") + (whole + point + frac))
         == Some(if negative then -Fraction(whole, frac) else Fraction(whole, frac))
  {
    hide ParseFloat, Fraction, ParseMantissa, ParseUnsignedFloat;
    DecimalReads(whole, point, frac);
    SignRead(whole + point + frac, negative);
  }

  /** Times or divided by a power of ten. */
  ghost function Shift(x: real, down: bool, k: nat): real {
    if down then x / Pow(10, k) as real else x * Pow(10, k) as real
  }

  /** An exponent multiplies it by that power of ten. */
  lemma WhatExponentsDo(whole: string, point: string, frac: string, negative: bool, e: char, sign: string, k: nat)
    requires AnyDigits(whole) && AnyDigits(frac) && whole + frac != "" && (e == 'e' || e == 'E') && sign in ["", "+", "-"]
    requires point == "." || (point == "" && frac == "")
    ensures var value := if negative then -Fraction(whole, frac) else Fraction(whole, frac);
            ParseFloat((if negative then "-" else "") + (whole + point + frac + [e] + (sign + Numeral(k, 10, 1))))
            == Some(Shift(value, sign == "-", k))
  {
    hide Numeral, ParseFloat, Fraction, ParseMantissa, ParseUnsignedFloat, Shift;
    var m := whole + point + frac;
    DecimalReads(whole, point, frac);
    ExponentReads(m, e, sign, k, Fraction(whole, frac));
    ShiftNegates(Fraction(whole, frac), sign == "-", k);
    EndsInDigit(m, e, sign, k);
    SignRead(m + [e] + (sign + Numeral(k, 10, 1)), negative);
  }

  lemma EndsInDigit(m: string, e: char, sign: string, k: nat)
    requires PlainDecimal(m)
    ensures var s := m + [e] + (sign + Numeral(k, 10, 1)); s[0] == m[0] && !IsSpace(s[|s| - 1])
  {
    hide Numeral;
    var digits := Numeral(k, 10, 1);
    var s := m + [e] + (sign + digits);
    assert s[|s| - 1] == digits[|digits| - 1] && PrintedDigit(digits[|digits| - 1], 10);
  }

  lemma DecimalReads(whole: string, point: string, frac: string)
    requires AnyDigits(whole) && AnyDigits(frac) && whole + frac != ""
    requires point == "." || (point == "" && frac == "")
    ensures var m := whole + point + frac;
            && PlainDecimal(m) && ParseMantissa(m) == ParseUnsignedFloat(m) == Some(Fraction(whole, frac))
  {
    hide ParseMantissa, ParseUnsignedFloat, Fraction;
    var m := whole + point + frac;
    assert forall i :: 0 <= i < |m| ==>
      m[i] == if i < |whole| then whole[i] else if i < |whole| + |point| then point[i - |whole|] else frac[i - |whole| - |point|];
    MantissaReads(whole, point, frac);
    WithoutExponent(m);
  }

  lemma ExponentReads(m: string, e: char, sign: string, k: nat, v: real)
    requires PlainDecimal(m) && (e == 'e' || e == 'E') && ParseMantissa(m) == Some(v) && sign in ["", "+", "-"]
    ensures ParseUnsignedFloat(m + [e] + (sign + Numeral(k, 10, 1)))
         == Some(Shift(v, sign == "-", k))
  {
    hide ParseMantissa, ParseUnsignedFloat, Numeral, Value, Pow;
    var digits := Numeral(k, 10, 1);
    NumeralValue(k, 10, 1);
    assert forall i :: 0 <= i < |digits| ==> PrintedDigit(digits[i], 10);
    SignedInt(sign, digits);
    WithExponent(m, e, sign + digits, v, Signed(sign == "-", k));
    Shifted(v, k);
  }

  lemma ShiftNegates(x: real, down: bool, k: nat)
    ensures Shift(-x, down, k) == -Shift(x, down, k)
  {
    var p := Pow(10, k) as real;
    var q := x / p;
    assert q * p == x;
    assert (-q) * p == -x;
    assert (-x) / p == -q;
  }

  lemma MantissaReads(whole: string, point: string, frac: string)
    requires AnyDigits(whole) && AnyDigits(frac) && whole + frac != ""
    requires point == "." || (point == "" && frac == "")
    ensures ParseMantissa(whole + point + frac) == Some(Fraction(whole, frac))
  {
    hide Value, Pow;
    var s := whole + point + frac;
    if point == "" {
      assert s == whole;
      FindNone(whole, '.');
      assert whole[..|whole|] == whole;
      NoFraction();
    } else {
      assert '.' !in whole;
      FindAfter(whole, '.', frac);
      assert s[..|whole|] == whole && s[|whole| + 1..] == frac;
    }
    Shifted(Value(frac, 10) as real, |frac|);
  }

  lemma NoFraction()
    ensures Value("", 10) == 0 && Pow(10, 0) == 1
  {
  }

  lemma Shifted(x: real, k: nat)
    ensures Scale(x, 0 - k) == x / Pow(10, k) as real && Scale(x, k) == x * Pow(10, k) as real
  {
    assert Pow(10, 0) == 1;
  }

  /** Neither `e` nor `E`. */
  ghost predicate PlainDecimal(s: string) { s != "" && forall i :: 0 <= i < |s| ==> '0' <= s[i] <= '9' || s[i] == '.' }

  lemma WithoutExponent(m: string)
    requires PlainDecimal(m)
    ensures ParseUnsignedFloat(m) == ParseMantissa(m)
  {
    PlainFloat(m);
  }

  lemma WithExponent(m: string, e: char, exponent: string, v: real, x: int)
    requires PlainDecimal(m) && (e == 'e' || e == 'E') && ParseMantissa(m) == Some(v) && ParseSignedInt(exponent) == Some(x)
    requires e !in exponent && (if e == 'e' then 'E' else 'e') !in exponent
    ensures ParseUnsignedFloat(m + [e] + exponent) == Some(Scale(v, x))
  {
    hide ParseMantissa, ParseSignedInt, Scale;
    var s := m + [e] + exponent;
    assert e !in m;
    FindAfter(m, e, exponent);
    var other := if e == 'e' then 'E' else 'e';
    assert other !in s;
    FindNone(s, other);
    assert s[..|m|] == m && s[|m| + 1..] == exponent;
  }

  lemma SignRead(u: string, negative: bool)
    requires u != "" && ('0' <= u[0] <= '9' || u[0] == '.') && !IsSpace(u[|u| - 1])
    ensures ParseFloat((if negative then "-" else "") + u) == WithSign(negative, ParseUnsignedFloat(u))
  {
    hide ParseUnsignedFloat, Strip;
    var t := (if negative then "-" else "") + u;
    assert t[|t| - 1] == u[|u| - 1];
    StripClean(t);
    if negative {
      assert t[1..] == u;
    } else {
      assert t == u;
    }
  }
}

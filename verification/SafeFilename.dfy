/** Turning untrusted URL paths and titles into one safe file name of bounded byte length. */
module SafeFilename {
  import opened Common
  import opened PyText
  import opened Utf8

  // ------------------------------------------------------------ truncation

  /** The longest prefix of whole characters within `maxBytes` bytes. */
  function Truncated(text: string, maxBytes: int): string { text[..Fitting(text, maxBytes)] }

  lemma TruncatedIsLongest(text: string, maxBytes: int)
    ensures var r := Truncated(text, maxBytes);
            && r <= text && |Encode(r)| <= Max(maxBytes, 0)
            && (forall k :: |r| < k <= |text| ==> |Encode(text[..k])| > maxBytes)
            && (r == text <==> |Encode(text)| <= Max(maxBytes, 0))
  {
    FittingIsLongest(text, Max(maxBytes, 0));
    FittingOfNegative(text, maxBytes);
    assert text[..|text|] == text;
  }

  lemma FittingOfNegative(text: string, maxBytes: int)
    ensures Fitting(text, maxBytes) == Fitting(text, Max(maxBytes, 0))
  {
  }

  lemma {:induction false} PrefixWidth(text: string, k: nat)
    requires k < |text|
    ensures |Encode(text[..k + 1])| == |Encode(text[..k])| + Width(text[k])
  {
    assert text[..k + 1] == text[..k] + [text[k]];
    EncodeConcat(text[..k], [text[k]]);
    assert [text[k]][1..] == "";
  }

  /** `truncate_utf8_bytes`: cut the bytes, then drop bytes until the rest decodes. */
  method TruncateUtf8Bytes(text: string, maxBytes: int) returns (r: string, ghost trims: nat)
    ensures r == Truncated(text, maxBytes)
    ensures trims <= 3
  {
    trims := 0;
    FittingOfNegative(text, maxBytes);
    FittingIsLongest(text, Max(maxBytes, 0));
    if maxBytes <= 0 {
      NothingFits(text);
      return "", 0;
    }
    var encoded := Encode(text);
    assert text[..|text|] == text;
    if |encoded| <= maxBytes {
      return text, 0;
    }
    var truncated := encoded[..maxBytes];
    ghost var k := Fitting(text, maxBytes);
    ghost var boundary := |Encode(text[..k])|;
    PrefixWidth(text, k);
    while |truncated| > 0
      invariant |truncated| <= maxBytes && truncated == encoded[..|truncated|]
      invariant boundary <= |truncated|
      invariant trims == maxBytes - |truncated|
    {
      PrefixDecodes(text, |truncated|);
      SameBoundary(text, maxBytes, |truncated|);
      var decoded := Decode(truncated);
      if decoded.Some? {
        return decoded.value, trims;
      }
      truncated := truncated[..|truncated| - 1];
      trims := trims + 1;
    }
    SameBoundary(text, maxBytes, 0);
    NothingFits(text);
    return "", trims;
  }

  lemma NothingFits(text: string)
    ensures Fitting(text, 0) == 0
  {
  }

  /** Budgets between a boundary and the next allow the same characters. */
  lemma SameBoundary(text: string, n: nat, m: nat)
    requires |Encode(text[..Fitting(text, n)])| <= m <= n
    ensures Fitting(text, m) == Fitting(text, n)
  {
    FittingIsLongest(text, n);
    FittingIsLongest(text, m);
  }

  // ------------------------------------------------------------ sanitizing

  predicate Control(c: char) { c <= '\U{1f}' || c == '\U{7f}' }

  predicate Unsafe(c: char) { c in "\\/:*?\"<>|" }

  function CleanedChar(c: char): string { if Control(c) then "" else if Unsafe(c) then "_" else [c] }

  /** Drops control characters and replaces reserved ones. */
  function Cleaned(text: string): string {
    if text == "" then "" else Cleaned(text[..|text| - 1]) + CleanedChar(text[|text| - 1])
  }

  /** `s.lstrip(c)`. */
  function LStripChar(s: string, c: char): (r: string)
    ensures |r| <= |s| && r == s[|s| - |r|..]
    ensures r != "" ==> r[0] != c
    ensures forall i :: 0 <= i < |s| - |r| ==> s[i] == c
  {
    if s != "" && s[0] == c then LStripChar(s[1..], c) else s
  }

  function RStripChar(s: string, c: char): (r: string)
    ensures r <= s
    ensures r != "" ==> r[|r| - 1] != c
    ensures forall i :: |r| <= i < |s| ==> s[i] == c
  {
    if s != "" && s[|s| - 1] == c then RStripChar(s[..|s| - 1], c) else s
  }

  /** `s.strip(".")`. */
  function StripDots(s: string): string { RStripChar(LStripChar(s, '.'), '.') }

  /** `sanitize_component`. */
  function Sanitize(text: string): string { LStripChar(StripDots(Strip(Cleaned(text))), '-') }

  lemma {:induction false} CleanedIsSafe(text: string)
    ensures forall c :: c in Cleaned(text) ==> !Control(c) && !Unsafe(c)
  {
    if text != "" {
      CleanedIsSafe(text[..|text| - 1]);
    }
  }

  lemma {:induction false} LStripIsPart(s: string)
    ensures forall c :: c in LStrip(s) ==> c in s
  {
    if s != "" && IsSpace(s[0]) {
      LStripIsPart(s[1..]);
    }
  }

  lemma StripIsPart(s: string)
    ensures forall c :: c in Strip(s) ==> c in s
  {
    LStripIsPart(s);
  }

  lemma LStripCharIsPart(s: string, c: char)
    ensures forall x :: x in LStripChar(s, c) ==> x in s
    ensures LStripChar(s, c) != "" ==> LStripChar(s, c)[|LStripChar(s, c)| - 1] == s[|s| - 1]
  {
    hide LStripChar;
    var r := LStripChar(s, c);
    forall x | x in r ensures x in s {
      var i :| 0 <= i < |r| && r[i] == x;
      assert s[|s| - |r| + i] == x;
    }
  }

  lemma StripDotsIsPart(s: string)
    ensures forall x :: x in StripDots(s) ==> x in s
    ensures StripDots(s) != "" ==> StripDots(s)[|StripDots(s)| - 1] != '.'
  {
    hide LStripChar, RStripChar;
    var l := LStripChar(s, '.');
    LStripCharIsPart(s, '.');
    var r := RStripChar(l, '.');
    forall x | x in r ensures x in s {
      var i :| 0 <= i < |r| && r[i] == x;
      assert l[i] == x;
    }
  }

  /** A sanitized name has no separator, no control or reserved character, does not begin
      with a dash and does not end with a dot, so it is never "." or "..". */
  lemma SanitizedIsSafe(text: string)
    ensures var r := Sanitize(text);
            && (forall c :: c in r ==> !Control(c) && !Unsafe(c))
            && (r != "" ==> r[0] != '-' && r[|r| - 1] != '.')
            && r != "." && r != ".."
  {
    hide Cleaned, Strip, StripDots, LStripChar, Control, Unsafe;
    var stripped := Strip(Cleaned(text));
    CleanedIsSafe(text);
    StripIsPart(Cleaned(text));
    StripDotsIsPart(stripped);
    LStripCharIsPart(StripDots(stripped), '-');
  }

  /** A dot that only dashes precede. */
  predicate DashesThenDot(u: string, k: nat) {
    0 < k < |u| && u[k] == '.' && forall i :: 0 <= i < k ==> u[i] == '-'
  }

  ghost predicate HiddenByDashes(u: string) { exists k: nat :: DashesThenDot(u, k) }

  predicate BeginsWith(s: string, c: char) { s != "" && s[0] == c }

  lemma DotAfterDashes(u: string)
    requires !BeginsWith(u, '.')
    ensures BeginsWith(LStripChar(u, '-'), '.') <==> HiddenByDashes(u)
  {
    var r := LStripChar(u, '-');
    var n := |u| - |r|;
    if r != "" && r[0] == '.' {
      assert r[0] == u[n];
      assert DashesThenDot(u, n);
    }
    forall k: nat | DashesThenDot(u, k) ensures r != "" && r[0] == '.' {
      assert n <= k;
      assert r[0] == u[n];
      assert n == k;
    }
  }

  /** Nothing but `c`, apart from control characters, which are dropped. */
  predicate AllOf(s: string, c: char) { forall i :: 0 <= i < |s| ==> s[i] == c || Control(s[i]) }

  predicate AllSpace(s: string) { forall i :: 0 <= i < |s| ==> IsSpace(s[i]) || Control(s[i]) }

  /** `e` and `f` are the whole of `rest`: dots, then white space. */
  predicate DotsThenSpaceAs(rest: string, e: string, f: string) { rest == e + f && AllOf(e, '.') && AllSpace(f) }

  ghost predicate DotsThenSpace(rest: string) { exists e, f :: DotsThenSpaceAs(rest, e, f) }

  /** White space, dots, at least one dash, then a dot that the end of the name does not strip. */
  ghost predicate HiddenDotAs(text: string, a: string, b: string, d: string, rest: string) {
    DottedAs(text, a, b, d, rest) && !DotsThenSpace(rest)
  }

  predicate DottedAs(text: string, a: string, b: string, d: string, rest: string) {
    text == a + b + d + "." + rest && AllSpace(a) && AllOf(b, '.') && AllOf(d, '-') && '-' in d
  }

  ghost predicate HiddenDot(text: string) { exists a, b, d, rest :: HiddenDotAs(text, a, b, d, rest) }

  // Cleaning works character by character.

  lemma {:induction false} CleanedConcat(a: string, b: string)
    ensures Cleaned(a + b) == Cleaned(a) + Cleaned(b)
  {
    hide CleanedChar;
    if b == "" {
      assert a + b == a;
    } else {
      assert (a + b)[..|a + b| - 1] == a + b[..|b| - 1];
      CleanedConcat(a, b[..|b| - 1]);
    }
  }

  lemma CleanedOne(c: char)
    ensures Cleaned([c]) == CleanedChar(c)
  {
    hide CleanedChar;
    assert [c][..0] == "";
  }

  /** Every character of a cleaned text comes from one place. */
  lemma {:induction false} CleanedAt(text: string, k: nat) returns (j: nat)
    requires k < |Cleaned(text)|
    ensures j < |text| && CleanedChar(text[j]) == [Cleaned(text)[k]]
    ensures Cleaned(text[..j]) == Cleaned(text)[..k] && Cleaned(text[j + 1..]) == Cleaned(text)[k + 1..]
  {
    hide Cleaned, CleanedChar;
    NothingCleaned();
    var front, last := text[..|text| - 1], text[|text| - 1];
    assert text == front + [last];
    CleanedOne(last);
    CleanedConcat(front, [last]);
    AtMostOne(last);
    if k < |Cleaned(front)| {
      j := CleanedAt(front, k);
      assert text[..j] == front[..j] && text[j + 1..] == front[j + 1..] + [last];
      CleanedConcat(front[j + 1..], [last]);
    } else {
      j := |text| - 1;
      assert text[j + 1..] == "";
    }
  }

  lemma AtMostOne(c: char)
    ensures |CleanedChar(c)| <= 1
  {
  }

  lemma CleanedCut(text: string, k: nat) returns (j: nat)
    requires k <= |Cleaned(text)|
    ensures j <= |text| && Cleaned(text[..j]) == Cleaned(text)[..k] && Cleaned(text[j..]) == Cleaned(text)[k..]
  {
    hide Cleaned, CleanedChar;
    var c := Cleaned(text);
    if k == |c| {
      j := |text|;
      assert text[..j] == text && text[j..] == "";
      NothingCleaned();
    } else {
      j := CleanedAt(text, k);
      CleanedConcat([text[j]], text[j + 1..]);
      CleanedOne(text[j]);
      assert text[j..] == [text[j]] + text[j + 1..];
      assert c[k..] == [c[k]] + c[k + 1..];
    }
  }

  lemma NothingCleaned()
    ensures Cleaned("") == ""
  {
  }

  lemma CleanedHolds(text: string, i: nat)
    requires i < |text|
    ensures forall x :: x in CleanedChar(text[i]) ==> x in Cleaned(text)
  {
    hide CleanedChar, Cleaned;
    assert text == text[..i] + ([text[i]] + text[i + 1..]);
    CleanedConcat(text[..i], [text[i]] + text[i + 1..]);
    CleanedConcat([text[i]], text[i + 1..]);
    CleanedOne(text[i]);
  }

  lemma CleanedKept(text: string, k: nat)
    requires k < |Cleaned(text)|
    ensures exists j :: 0 <= j < |text| && CleanedChar(text[j]) == [Cleaned(text)[k]]
  {
    hide CleanedChar, Cleaned;
    var j := CleanedAt(text, k);
  }

  lemma AllOfCleaned(text: string, c: char)
    requires c == '.' || c == '-'
    ensures AllOf(Cleaned(text), c) <==> AllOf(text, c)
  {
    hide Cleaned;
    var cleaned := Cleaned(text);
    CleanedIsSafe(text);
    if AllOf(text, c) {
      forall k | 0 <= k < |cleaned| ensures cleaned[k] == c {
        CleanedKept(text, k);
      }
    }
    if AllOf(cleaned, c) {
      forall i | 0 <= i < |text| ensures text[i] == c || Control(text[i]) {
        CleanedHolds(text, i);
        AllOfHolds(cleaned, c, text[i]);
      }
    }
  }

  lemma AllOfHolds(cleaned: string, c: char, x: char)
    requires AllOf(cleaned, c) && Visible(cleaned) && (c == '.' || c == '-')
    requires forall y :: y in CleanedChar(x) ==> y in cleaned
    ensures x == c || Control(x)
  {
    if !Control(x) {
      assert CleanedChar(x)[0] in CleanedChar(x);
    }
  }

  lemma SpaceHolds(cleaned: string, x: char)
    requires AllSpace(cleaned) && Visible(cleaned)
    requires forall y :: y in CleanedChar(x) ==> y in cleaned
    ensures IsSpace(x) || Control(x)
  {
    hide IsSpace;
    UnderscoreIsVisible();
    if !Control(x) {
      assert CleanedChar(x)[0] in CleanedChar(x);
    }
  }

  lemma UnderscoreIsVisible()
    ensures !IsSpace('_') && !IsSpace('.') && !IsSpace('-')
  {
  }

  lemma DashCleaned(text: string)
    ensures '-' in Cleaned(text) <==> '-' in text
  {
    hide Cleaned;
    var cleaned := Cleaned(text);
    if '-' in text {
      var i :| 0 <= i < |text| && text[i] == '-';
      CleanedHolds(text, i);
      assert CleanedChar('-')[0] == '-';
    }
    if '-' in cleaned {
      var k :| 0 <= k < |cleaned| && cleaned[k] == '-';
      CleanedKept(text, k);
      var j :| 0 <= j < |text| && CleanedChar(text[j]) == [cleaned[k]];
      assert [cleaned[k]][0] == '-';
    }
  }

  lemma AllSpaceCleaned(text: string)
    ensures AllSpace(Cleaned(text)) <==> AllSpace(text)
  {
    hide Cleaned, IsSpace;
    var cleaned := Cleaned(text);
    CleanedIsSafe(text);
    UnsafeIsNoSpace();
    if AllSpace(text) {
      forall k | 0 <= k < |cleaned| ensures IsSpace(cleaned[k]) {
        CleanedKept(text, k);
        var j :| 0 <= j < |text| && CleanedChar(text[j]) == [cleaned[k]];
        assert [cleaned[k]][0] == cleaned[k];
      }
    }
    if AllSpace(cleaned) {
      forall i | 0 <= i < |text| ensures IsSpace(text[i]) || Control(text[i]) {
        CleanedHolds(text, i);
        SpaceHolds(cleaned, text[i]);
      }
    }
  }

  lemma UnsafeIsNoSpace()
    ensures forall c :: Unsafe(c) ==> !IsSpace(c)
  {
  }

  /** A text without control characters. */
  ghost predicate Visible(c: string) { forall i :: 0 <= i < |c| ==> !Control(c[i]) }

  lemma CleanedIsVisible(text: string)
    ensures Visible(Cleaned(text))
  {
    CleanedIsSafe(text);
  }

  lemma EndCleaned(rest: string)
    ensures DotsThenSpace(Cleaned(rest)) <==> DotsThenSpace(rest)
  {
    hide Cleaned, AllOf, AllSpace;
    if e, f :| DotsThenSpaceAs(rest, e, f) {
      CleanedConcat(e, f);
      AllOfCleaned(e, '.');
      AllSpaceCleaned(f);
      assert DotsThenSpaceAs(Cleaned(rest), Cleaned(e), Cleaned(f));
    }
    if e, f :| DotsThenSpaceAs(Cleaned(rest), e, f) {
      var j := CleanedCut(rest, |e|);
      AllOfCleaned(rest[..j], '.');
      AllSpaceCleaned(rest[j..]);
      assert DotsThenSpaceAs(rest, rest[..j], rest[j..]);
    }
  }

  lemma DotCleans()
    ensures Cleaned(".") == "." && CleanedChar('.') == "."
  {
    CleanedOne('.');
  }

  lemma DotWas(x: char)
    requires CleanedChar(x) == ['.']
    ensures x == '.'
  {
    assert [x][0] == x && "_"[0] == '_' && ['.'][0] == '.';
  }

  lemma CleanedPieces(a: string, b: string, d: string, rest: string)
    ensures Cleaned(a + b + d + "." + rest) == Cleaned(a) + Cleaned(b) + Cleaned(d) + "." + Cleaned(rest)
  {
    hide Cleaned, CleanedChar;
    CleanedConcat(a + b + d + ".", rest);
    CleanedConcat(a + b + d, ".");
    CleanedConcat(a + b, d);
    CleanedConcat(a, b);
    DotCleans();
  }

  lemma DottedCleans(text: string, a: string, b: string, d: string, rest: string)
    requires DottedAs(text, a, b, d, rest)
    ensures DottedAs(Cleaned(text), Cleaned(a), Cleaned(b), Cleaned(d), Cleaned(rest))
  {
    hide Cleaned, DottedAs;
    DottedParts(text, a, b, d, rest);
    CleanedPieces(a, b, d, rest);
    ClassesClean(a, b, d);
    DottedOf(Cleaned(a), Cleaned(b), Cleaned(d), Cleaned(rest));
  }

  lemma DottedParts(text: string, a: string, b: string, d: string, rest: string)
    requires DottedAs(text, a, b, d, rest)
    ensures text == a + b + d + "." + rest && AllSpace(a) && AllOf(b, '.') && AllOf(d, '-') && '-' in d
  {
    hide AllSpace, AllOf;
  }

  lemma DottedOf(a: string, b: string, d: string, rest: string)
    requires AllSpace(a) && AllOf(b, '.') && AllOf(d, '-') && '-' in d
    ensures DottedAs(a + b + d + "." + rest, a, b, d, rest)
  {
    hide AllSpace, AllOf;
  }

  lemma ClassesClean(a: string, b: string, d: string)
    requires AllSpace(a) && AllOf(b, '.') && AllOf(d, '-') && '-' in d
    ensures AllSpace(Cleaned(a)) && AllOf(Cleaned(b), '.') && AllOf(Cleaned(d), '-') && '-' in Cleaned(d)
  {
    hide Cleaned, AllOf, AllSpace;
    AllSpaceCleaned(a);
    AllOfCleaned(b, '.');
    AllOfCleaned(d, '-');
    DashCleaned(d);
  }

  lemma HiddenDotCleans(text: string, a: string, b: string, d: string, rest: string)
    requires HiddenDotAs(text, a, b, d, rest)
    ensures HiddenDotAs(Cleaned(text), Cleaned(a), Cleaned(b), Cleaned(d), Cleaned(rest))
  {
    hide Cleaned, DottedAs, DotsThenSpace;
    DottedCleans(text, a, b, d, rest);
    EndCleaned(rest);
  }

  lemma HiddenDotWasThere(text: string, a: string, b: string, d: string, rest: string)
    requires HiddenDotAs(Cleaned(text), a, b, d, rest)
    ensures HiddenDot(text)
  {
    hide Cleaned, AllOf, AllSpace, DotsThenSpace, CleanedChar;
    var c := Cleaned(text);
    assert c[|a + b + d|] == '.' && c[..|a + b + d|] == a + b + d && c[|a + b + d| + 1..] == rest;
    var j := CleanedAt(text, |a + b + d|);
    DotWas(text[j]);
    var above, below := text[..j], text[j + 1..];
    assert text == above + [text[j]] + below;
    var k := CleanedCut(above, |a + b|);
    assert (a + b + d)[..|a + b|] == a + b && (a + b + d)[|a + b|..] == d;
    var m := CleanedCut(above[..k], |a|);
    assert (a + b)[..|a|] == a && (a + b)[|a|..] == b;
    var x, y, z := above[..k][..m], above[..k][m..], above[k..];
    AllSpaceCleaned(x);
    AllOfCleaned(y, '.');
    AllOfCleaned(z, '-');
    DashCleaned(z);
    EndCleaned(below);
    assert above == x + y + z;
    assert HiddenDotAs(text, x, y, z, below);
  }

  // What the three strips do to such a text.

  lemma {:induction false} LStripDrops(s: string)
    ensures forall i :: 0 <= i < |s| - |LStrip(s)| ==> IsSpace(s[i])
  {
    hide IsSpace;
    if s != "" && IsSpace(s[0]) {
      LStripDrops(s[1..]);
      assert forall i :: 0 < i < |s| ==> s[i] == s[1..][i - 1];
    }
  }

  /** Where the pieces of a stripped text lie in the text. */
  lemma StripParts(c: string) returns (p: nat, q: nat)
    ensures p + q <= |c| && Strip(c) == c[p..|c| - q]
    ensures forall i :: 0 <= i < p || |c| - q <= i < |c| ==> IsSpace(c[i])
  {
    hide IsSpace, LStrip, RStrip;
    var l := LStrip(c);
    LStripDrops(c);
    p, q := |c| - |l|, |l| - |RStrip(l)|;
    assert l == c[p..];
    assert forall i :: p <= i < |c| ==> c[i] == l[i - p];
  }

  lemma DotParts(s: string) returns (p: nat, q: nat)
    ensures p + q <= |s| && StripDots(s) == s[p..|s| - q]
    ensures forall i :: 0 <= i < p || |s| - q <= i < |s| ==> s[i] == '.'
  {
    hide LStripChar, RStripChar;
    var l := LStripChar(s, '.');
    p, q := |s| - |l|, |l| - |RStripChar(l, '.')|;
    assert l == s[p..];
    assert forall i :: p <= i < |s| ==> s[i] == l[i - p];
  }

  /** Neither dot nor white space at `x`, and no white space at `y` behind it. */
  lemma NotTheEnd(rest: string, x: nat, y: nat)
    requires Visible(rest) && x <= y < |rest| && rest[x] != '.' && !IsSpace(rest[y])
    ensures !DotsThenSpace(rest)
  {
    hide IsSpace, Control, DotsThenSpaceAs;
    if e, f :| DotsThenSpaceAs(rest, e, f) {
      OnlySpaceBehind(rest, e, f, x, y);
    }
  }

  lemma OnlySpaceBehind(rest: string, e: string, f: string, x: nat, y: nat)
    requires DotsThenSpaceAs(rest, e, f) && x <= y < |rest| && rest[x] != '.' && !Control(rest[x])
    ensures IsSpace(rest[y]) || Control(rest[y])
  {
    hide IsSpace, Control;
    assert forall i :: 0 <= i < |e| ==> e[i] == rest[i];
    assert |e| <= x;
    assert f[y - |e|] == rest[y];
  }

  lemma LastIsSolid(c: string)
    ensures Strip(c) != "" ==> !IsSpace(Strip(c)[|Strip(c)| - 1]) && !IsSpace(Strip(c)[0])
  {
  }

  /** The pieces around a dot that dashes hide in `u`, which stands at `at` in `c`. */
  lemma PiecesAround(c: string, p: nat, at: nat, u: string, k: nat)
    requires p <= at && at + |u| <= |c| && u == c[at..at + |u|] && DashesThenDot(u, k)
    requires forall i :: 0 <= i < p ==> IsSpace(c[i])
    requires forall i :: p <= i < at ==> c[i] == '.'
    ensures DottedAs(c, c[..p], c[p..at], c[at..at + k], c[at + k + 1..])
  {
    hide IsSpace, Control;
    assert forall i :: 0 <= i <= k ==> c[at + i] == u[i];
    var d := c[at..at + k];
    assert c == c[..p] + c[p..at] + d + [c[at + k]] + c[at + k + 1..];
    assert c[at + k] == u[k];
    forall i | 0 <= i < k ensures d[i] == '-' { assert d[i] == u[i]; }
    assert d[0] == '-';
    assert AllSpace(c[..p]) && AllOf(c[p..at], '.');
  }

  lemma StandsAt(c: string, p: nat, q: nat, s: string, p': nat, q': nat)
    requires p + q <= |c| && s == c[p..|c| - q] && p' + q' <= |s|
    requires forall i :: 0 <= i < p' ==> s[i] == '.'
    ensures var u := s[p'..|s| - q']; u == c[p + p'..p + p' + |u|]
    ensures forall i :: p <= i < p + p' ==> c[i] == '.'
  {
    forall i | p <= i < p + p' ensures c[i] == '.' { assert c[i] == s[i - p]; }
    var u := s[p'..|s| - q'];
    var v := c[p + p'..p + p' + |u|];
    forall i | 0 <= i < |u| ensures u[i] == v[i] { assert u[i] == s[p' + i] == c[p + p' + i]; }
  }

  lemma SolidBehind(c: string, p: nat, q: nat, p': nat, u: string, k: nat)
    requires Visible(c) && p + q < |c| && p + p' + |u| <= |c| - q && u == c[p + p'..p + p' + |u|]
    requires DashesThenDot(u, k) && u[|u| - 1] != '.' && !IsSpace(c[|c| - q - 1])
    ensures !DotsThenSpace(c[p + p' + k + 1..])
  {
    hide IsSpace, Control, DotsThenSpace;
    var rest := c[p + p' + k + 1..];
    var z, y := |u| - 1, |c| - q - 1;
    assert rest[z - k - 1] == c[p + p' + z] == u[z];
    assert rest[y - p - p' - k - 1] == c[y];
    NotTheEnd(rest, z - k - 1, y - p - p' - k - 1);
  }

  lemma FoundHidden(c: string, k: nat)
    requires Visible(c) && DashesThenDot(StripDots(Strip(c)), k)
    ensures HiddenDot(c)
  {
    hide Strip, StripDots, IsSpace, Control, DotsThenSpace, DottedAs, DashesThenDot, Visible;
    var s := Strip(c);
    var p, q := StripParts(c);
    var p', q' := DotParts(s);
    var u := StripDots(s);
    StandsAt(c, p, q, s, p', q');
    StripDotsIsPart(s);
    LastIsSolid(c);
    DashesFit(u, k);
    assert s[|s| - 1] == c[|c| - q - 1];
    PiecesAround(c, p, p + p', u, k);
    SolidBehind(c, p, q, p', u, k);
    assert HiddenDotAs(c, c[..p], c[p..p + p'], c[p + p'..p + p' + k], c[p + p' + k + 1..]);
  }

  lemma DashesFit(u: string, k: nat)
    requires DashesThenDot(u, k)
    ensures k < |u|
  {
  }

  lemma PartsOf(c: string, a: string, b: string, d: string, rest: string)
    requires Visible(c) && DottedAs(c, a, b, d, rest)
    ensures var dot := |a| + |b| + |d|;
            && dot < |c| && |d| > 0 && c[dot] == '.' && rest == c[dot + 1..]
            && (forall i :: 0 <= i < |a| ==> IsSpace(c[i]))
            && (forall i :: |a| <= i < |a| + |b| ==> c[i] == '.')
            && (forall i :: |a| + |b| <= i < dot ==> c[i] == '-')
  {
    hide IsSpace, Control;
    assert forall i :: 0 <= i < |a| ==> c[i] == a[i];
    assert forall i :: 0 <= i < |b| ==> c[|a| + i] == b[i];
    assert forall i :: 0 <= i < |d| ==> c[|a| + |b| + i] == d[i];
  }

  /** If the dot were dropped at the end, nothing but dots and white space would follow it. */
  lemma DroppedWithTheEnd(c: string, a: string, b: string, d: string, rest: string, s: string, q: nat, q': nat)
    requires Visible(c) && DottedAs(c, a, b, d, rest)
    requires |a| + |s| + q == |c| && s == c[|a|..|c| - q] && |c| - q > |a| + |b| + |d| && q' <= |s|
    requires forall i :: |c| - q <= i < |c| ==> IsSpace(c[i])
    requires forall i :: |s| - q' <= i < |s| ==> s[i] == '.'
    requires |s| - q' <= |b| + |d|
    ensures DotsThenSpace(rest)
  {
    hide IsSpace, Control;
    PartsOf(c, a, b, d, rest);
    var n := |rest| - q;
    assert forall i :: 0 <= i < |rest| ==> rest[i] == c[|a| + |b| + |d| + 1 + i];
    assert forall i :: 0 <= i < n ==> rest[i] == s[|b| + |d| + 1 + i];
    assert DotsThenSpaceAs(rest, rest[..n], rest[n..]);
  }

  /** What `strip` leaves of such a text begins after the white space and keeps the dot. */
  lemma StrippedHidden(c: string, a: string, b: string, d: string, rest: string) returns (q: nat)
    requires Visible(c) && DottedAs(c, a, b, d, rest)
    ensures |a| + |Strip(c)| + q == |c| && Strip(c) == c[|a|..|c| - q] && |c| - q > |a| + |b| + |d|
    ensures forall i :: |c| - q <= i < |c| ==> IsSpace(c[i])
  {
    hide Strip, IsSpace, Control;
    UnderscoreIsVisible();
    var p;
    p, q := StripParts(c);
    PartsOf(c, a, b, d, rest);
    assert !IsSpace(c[|a|]);
    assert !IsSpace(c[|a| + |b| + |d|]);
    LastIsSolid(c);
    assert Strip(c)[0] == c[p];
  }

  /** What `strip(".")` leaves of it begins with the dashes. */
  lemma UndottedHidden(s: string, b: nat) returns (q': nat)
    requires b < |s| && s[b] == '-' && forall i :: 0 <= i < b ==> s[i] == '.'
    ensures b + q' <= |s| && StripDots(s) == s[b..|s| - q']
    ensures forall i :: |s| - q' <= i < |s| ==> s[i] == '.'
  {
    hide StripDots;
    var p;
    p, q' := DotParts(s);
    StripDotsFirst(s);
    assert StripDots(s)[0] == s[p];
  }

  /** The other way round: the dashes and the dot survive both strips. */
  lemma HiddenIsFound(c: string, a: string, b: string, d: string, rest: string)
    requires Visible(c) && HiddenDotAs(c, a, b, d, rest)
    ensures HiddenByDashes(StripDots(Strip(c)))
  {
    hide Strip, StripDots, IsSpace, Control, DotsThenSpace, DottedAs, Visible;
    var s := Strip(c);
    var q := StrippedHidden(c, a, b, d, rest);
    PartsOf(c, a, b, d, rest);
    assert forall i :: 0 <= i < |s| ==> s[i] == c[|a| + i];
    var q' := UndottedHidden(s, |b|);
    var u := StripDots(s);
    if |s| - q' <= |b| + |d| {
      DroppedWithTheEnd(c, a, b, d, rest, s, q, q');
    }
    assert forall i :: 0 <= i < |u| ==> u[i] == s[|b| + i];
    assert DashesThenDot(u, |d|);
  }

  /** Where the documentation is stricter than the code: a leading dot survives exactly when
      the text, but for control characters, is white space, dots, one or more dashes and then a
      dot after which not only dots and white space come. */
  lemma LeadingDotSurvives(text: string)
    ensures BeginsWith(Sanitize(text), '.') <==> HiddenDot(text)
  {
    hide Cleaned, Strip, StripDots, LStripChar, BeginsWith, HiddenDotAs;
    var c := Cleaned(text);
    StripDotsFirst(Strip(c));
    DotAfterDashes(StripDots(Strip(c)));
    CleanedIsVisible(text);
    if k: nat :| DashesThenDot(StripDots(Strip(c)), k) {
      FoundHidden(c, k);
      var a, b, d, rest :| HiddenDotAs(c, a, b, d, rest);
      HiddenDotWasThere(text, a, b, d, rest);
    }
    if a, b, d, rest :| HiddenDotAs(text, a, b, d, rest) {
      HiddenDotCleans(text, a, b, d, rest);
      HiddenIsFound(c, Cleaned(a), Cleaned(b), Cleaned(d), Cleaned(rest));
    }
  }

  lemma StripDotsFirst(s: string)
    ensures !BeginsWith(StripDots(s), '.')
  {
    var l := LStripChar(s, '.');
    assert RStripChar(l, '.') <= l;
  }

  /** Such an input. */
  lemma LeadingDotWitness()
    ensures BeginsWith(Sanitize("-.x"), '.')
  {
    hide Sanitize, BeginsWith;
    LeadingDotSurvives("-.x");
    assert "-.x" == "" + "" + "-" + "." + "x";
    NotTheEnd("x", 0, 0);
    assert "-"[0] in "-";
    assert HiddenDotAs("-.x", "", "", "-", "x");
  }

  // ------------------------------------------------------------ whole file names

  /** Index of the last `c`, or -1. */
  function FindLast(s: string, c: char): (k: int)
    ensures -1 <= k < |s| && (k >= 0 ==> s[k] == c)
    ensures forall i :: k < i < |s| ==> s[i] != c
  {
    if s == "" then -1 else if s[|s| - 1] == c then |s| - 1 else FindLast(s[..|s| - 1], c)
  }

  /** `_split_ext`. */
  function SplitExt(name: string): (r: (string, string))
    ensures r.0 + r.1 == name
  {
    var dot := FindLast(name, '.');
    if dot <= 0 then (name, "") else (name[..dot], name[dot..])
  }

  function Or(s: string, fallback: string): string { if s == "" then fallback else s }

  function Slashed(s: string): string {
    seq(|s|, i requires 0 <= i < |s| => if s[i] == '\\' then '/' else s[i])
  }

  /** The sanitized last segment of a decoded path. */
  function PathName(decoded: string): string {
    var path := Slashed(decoded);
    Sanitize(path[FindLast(path, '/') + 1..])
  }

  function EffectiveExt(name: string, defaultExt: string): string {
    if SplitExt(name).1 == "" then defaultExt else SplitExt(name).1
  }

  function Budget(maxBytes: int, fixed: string): int { Max(maxBytes - |Encode(fixed)|, 1) }

  /** `safe_basename_from_url_path`; `unquote` is the percent-decoder. */
  function SafeBasename(raw: string, unquote: string -> string, defaultStem: string, defaultExt: string, maxBytes: int): string {
    var name := PathName(unquote(raw));
    var fallback := Or(Sanitize(defaultStem), "download");
    if name == "" then Truncated(fallback, Budget(maxBytes, defaultExt)) + defaultExt
    else
      var ext := EffectiveExt(name, defaultExt);
      var budget := Budget(maxBytes, ext);
      Or(Truncated(SplitExt(name).0, budget), Or(Truncated(fallback, budget), "f")) + ext
  }

  /** `build_safe_named_file`. */
  function SafeNamedFile(stem: string, suffix: string, maxBytes: int): string {
    Or(Truncated(Or(Sanitize(stem), "file"), Budget(maxBytes, suffix)), "file") + suffix
  }

  lemma SizeOfJoin(a: string, b: string)
    ensures |Encode(a + b)| == |Encode(a)| + |Encode(b)|
  {
    EncodeConcat(a, b);
  }

  lemma NonEmptySize(s: string)
    requires s != ""
    ensures |Encode(s)| >= Width(s[0])
  {
  }

  lemma AsciiSizes()
    ensures |Encode("f")| == 1 && |Encode("file")| == 4
  {
    assert "f"[1..] == "" && "file"[1..] == "ile" && "ile"[1..] == "le" && "le"[1..] == "e" && "e"[1..] == "";
  }

  lemma TruncatedFits(text: string, budget: int)
    requires budget >= 1
    ensures |Encode(Truncated(text, budget))| <= budget
    ensures text != "" ==> (Truncated(text, budget) == "" <==> Width(text[0]) > budget)
  {
    TruncatedIsLongest(text, budget);
  }

  /** The name stays within the limit exactly when the extension leaves room for the stem;
      with no usable name in the path, an extension as long as the limit also passes when
      the default stem is cut to nothing. */
  lemma SafeBasenameFits(raw: string, unquote: string -> string, defaultStem: string, defaultExt: string, maxBytes: int)
    ensures var r := SafeBasename(raw, unquote, defaultStem, defaultExt, maxBytes);
            var name := PathName(unquote(raw));
            |Encode(r)| <= maxBytes <==>
              if name != "" then |Encode(EffectiveExt(name, defaultExt))| < maxBytes
              else (|Encode(defaultExt)| < maxBytes ||
                    (|Encode(defaultExt)| == maxBytes && Width(Or(Sanitize(defaultStem), "download")[0]) > 1))
  {
    hide Encode, Sanitize, PathName, SplitExt, EffectiveExt, Truncated;
    var name := PathName(unquote(raw));
    var fallback := Or(Sanitize(defaultStem), "download");
    var ext := if name == "" then defaultExt else EffectiveExt(name, defaultExt);
    var budget := Budget(maxBytes, ext);
    TruncatedFits(fallback, budget);
    AsciiSizes();
    EmptySize();
    if name == "" {
      var stem := Truncated(fallback, budget);
      SizeOfJoin(stem, ext);
      if stem != "" { NonEmptySize(stem); }
    } else {
      TruncatedFits(SplitExt(name).0, budget);
      var stem := Or(Truncated(SplitExt(name).0, budget), Or(Truncated(fallback, budget), "f"));
      SizeOfJoin(stem, ext);
      NonEmptySize(stem);
    }
  }

  lemma EmptySize()
    ensures |Encode("")| == 0
  {
  }

  /** The named file stays within the limit exactly when the suffix leaves room for the first
      character of the stem: a wider first character brings back the four bytes of "file". */
  lemma SafeNamedFileFits(stem: string, suffix: string, maxBytes: int)
    ensures var first := Or(Sanitize(stem), "file")[0];
            |Encode(SafeNamedFile(stem, suffix, maxBytes))| <= maxBytes <==> maxBytes - |Encode(suffix)| >= Width(first)
  {
    hide Encode, Sanitize, Truncated;
    var cleaned := Or(Sanitize(stem), "file");
    var budget := Budget(maxBytes, suffix);
    TruncatedFits(cleaned, budget);
    AsciiSizes();
    var shown := Or(Truncated(cleaned, budget), "file");
    SizeOfJoin(shown, suffix);
    NonEmptySize(shown);
    TruncatedIsPrefix(cleaned, budget);
  }

  lemma PlainStays(c: char)
    requires !Control(c) && !Unsafe(c) && !IsSpace(c) && c != '.' && c != '-'
    ensures Sanitize([c]) == [c]
  {
    hide Cleaned, Strip, Control, Unsafe, IsSpace;
    var s := [c];
    CleanedOne(c);
    assert Cleaned(s) == s by {
      hide *;
      CleanedPlain(c);
    }
    StripClean(s);
  }

  lemma CleanedPlain(c: char)
    requires !Control(c) && !Unsafe(c)
    ensures Cleaned([c]) == [c]
  {
    CleanedOne(c);
  }

  /** A first character of two bytes where one is left: the result has four bytes too many. */
  lemma SafeNamedFileWitness()
    ensures |Encode(SafeNamedFile(['\U{e9}'], ".mp4", 5))| > 5
  {
    hide SafeNamedFile, Sanitize, Encode;
    PlainStays('\U{e9}');
    SuffixSize();
    SafeNamedFileFits(['\U{e9}'], ".mp4", 5);
  }

  lemma SuffixSize()
    ensures |Encode(".mp4")| == 4
  {
    assert ".mp4"[1..] == "mp4" && "mp4"[1..] == "p4" && "p4"[1..] == "4" && "4"[1..] == "";
  }

  lemma TruncatedIsPrefix(text: string, budget: int)
    ensures Truncated(text, budget) <= text
  {
  }

  /** So four bytes of room are always enough. */
  lemma FourBytesAreEnough(stem: string, suffix: string, maxBytes: int)
    requires maxBytes - |Encode(suffix)| >= 4
    ensures |Encode(SafeNamedFile(stem, suffix, maxBytes))| <= maxBytes
  {
    SafeNamedFileFits(stem, suffix, maxBytes);
  }

  // ------------------------------------------------------------ what is left of a name

  /** Control characters go, reserved ones become underscores, all others stay, each in its place. */
  lemma WhatCleaningDoes(a: string, c: char, b: string)
    ensures Cleaned(a + [c] + b) == Cleaned(a) + (if c < ' ' || c == '\U{7f}' then ""
                                                  else if c in {'\\', '/', ':', '*', '?', '"', '<', '>', '|'} then "_"
                                                  else [c]) + Cleaned(b)
    ensures Cleaned("") == ""
  {
    hide Cleaned;
    CleanedConcat(a + [c], b);
    CleanedConcat(a, [c]);
    CleanedOne(c);
    ReservedAre(c);
    NothingCleaned();
  }

  lemma ReservedAre(c: char)
    ensures Unsafe(c) <==> c in {'\\', '/', ':', '*', '?', '"', '<', '>', '|'}
  {
    var s := "\\/:*?\"<>|";
    assert s[0] == '\\' && s[1] == '/' && s[2] == ':' && s[3] == '*' && s[4] == '?' && s[5] == '"' && s[6] == '<' && s[7] == '>' && s[8] == '|';
    assert |s| == 9;
  }

  /** A character no rule is about. */
  predicate Ordinary(c: char) {
    c >= ' ' && c != '\U{7f}' && c !in {'\\', '/', ':', '*', '?', '"', '<', '>', '|'}
  }

  lemma {:induction false} OrdinaryStays(text: string)
    requires forall c :: c in text ==> Ordinary(c)
    ensures Cleaned(text) == text
  {
    if text != "" {
      var front, last := text[..|text| - 1], text[|text| - 1];
      OrdinaryStays(front);
      ReservedAre(last);
      assert text == front + [last] && last in text;
    }
  }

  /** A name of ordinary characters that begins and ends with none of white space, dot and dash
      is left alone. */
  lemma GoodNamesStay(text: string)
    requires text != "" && forall c :: c in text ==> Ordinary(c)
    requires !IsSpace(text[0]) && text[0] != '.' && text[0] != '-' && !IsSpace(text[|text| - 1]) && text[|text| - 1] != '.'
    ensures Sanitize(text) == text
  {
    hide Cleaned, Strip;
    OrdinaryStays(text);
    StripClean(text);
  }

  /** The name is what follows the last separator of either kind. */
  lemma NameIsLastSegment(a: string, separator: char, b: string)
    requires separator == '/' || separator == '\\'
    requires '/' !in b && '\\' !in b
    ensures PathName(a + [separator] + b) == Sanitize(b) && PathName(b) == Sanitize(b)
  {
    hide Sanitize, FindLast;
    var s := Slashed(a + [separator] + b);
    assert s[|a|] == '/' && forall i :: |a| < i < |s| ==> s[i] == b[i - |a| - 1] && b[i - |a| - 1] in b;
    assert FindLast(s, '/') == |a|;
    assert s[|a| + 1..] == b;
    assert Slashed(b) == b by {
      assert forall i :: 0 <= i < |b| ==> b[i] in b;
    }
    assert FindLast(b, '/') == -1;
    assert b[0..] == b;
  }

  /** The extension begins at the last dot, unless that is the first character. */
  lemma ExtensionIs(stem: string, e: string)
    requires '.' !in e
    ensures stem != "" ==> SplitExt(stem + "." + e) == (stem, "." + e)
    ensures SplitExt("." + e) == ("." + e, "") && SplitExt(e) == (e, "")
  {
    hide FindLast;
    var s := stem + "." + e;
    assert s[|stem|] == '.' && forall i :: |stem| < i < |s| ==> s[i] == e[i - |stem| - 1] && e[i - |stem| - 1] in e;
    assert FindLast(s, '.') == |stem|;
    assert s[..|stem|] == stem && s[|stem|..] == "." + e;
    var d := "." + e;
    assert forall i :: 0 < i < |d| ==> d[i] == e[i - 1] && e[i - 1] in e;
    assert FindLast(d, '.') == 0 && FindLast(e, '.') == -1;
  }

  /** The name of a link `.../name`: what it is called there, sanitized, with the default extension if
      it has none; only the part before the extension is cut to fit. */
  lemma WhatALinkIsCalled(raw: string, unquote: string -> string, a: string, separator: char, b: string,
                          defaultStem: string, defaultExt: string, maxBytes: int)
    requires unquote(raw) == a + [separator] + b && (separator == '/' || separator == '\\')
    requires '/' !in b && '\\' !in b && Sanitize(b) != ""
    ensures var name, r := Sanitize(b), SafeBasename(raw, unquote, defaultStem, defaultExt, maxBytes);
            && (forall stem, e :: name == stem + "." + e && stem != "" && '.' !in e ==>
                  IsCut(stem, "." + e, maxBytes, defaultStem, r))
            && ('.' !in name[1..] ==> IsCut(name, defaultExt, maxBytes, defaultStem, r))
  {
    hide Sanitize, Truncated, PathName, SplitExt, Encode;
    NameIsLastSegment(a, separator, b);
    var name := Sanitize(b);
    forall stem, e | name == stem + "." + e && stem != "" && '.' !in e
      ensures IsCut(stem, "." + e, maxBytes, defaultStem, SafeBasename(raw, unquote, defaultStem, defaultExt, maxBytes))
    {
      ExtensionIs(stem, e);
      CutIs(stem, "." + e, maxBytes, defaultStem);
    }
    if '.' !in name[1..] {
      if name[0] == '.' {
        ExtensionIs("", name[1..]);
        assert name == "." + name[1..];
      } else {
        assert '.' !in name by { assert name == [name[0]] + name[1..]; }
        ExtensionIs("", name);
      }
      CutIs(name, defaultExt, maxBytes, defaultStem);
    }
  }

  /** `r` is `stem` and `ext`, whole if they fit; else with as much of the stem as fits, or if that is
      nothing, as much of the default stem, or an "f". */
  ghost predicate IsCut(stem: string, ext: string, maxBytes: int, defaultStem: string, r: string) {
    var room := Max(maxBytes - |Encode(ext)|, 1);
    var other := if Sanitize(defaultStem) == "" then "download" else Sanitize(defaultStem);
    && (|Encode(stem)| <= room ==> r == stem + ext)
    && exists shown :: r == shown + ext
         && shown == if Truncated(stem, room) != "" then Truncated(stem, room)
                     else if Truncated(other, room) != "" then Truncated(other, room) else "f"
  }

  lemma CutIs(stem: string, ext: string, maxBytes: int, defaultStem: string)
    requires stem != ""
    ensures var room := Budget(maxBytes, ext);
            IsCut(stem, ext, maxBytes, defaultStem,
                  Or(Truncated(stem, room), Or(Truncated(Or(Sanitize(defaultStem), "download"), room), "f")) + ext)
  {
    hide Sanitize, Truncated, Encode;
    TruncatedIsLongest(stem, Budget(maxBytes, ext));
  }

  /** A stem that fits is kept whole, with its suffix. */
  lemma WhatANamedFileIsCalled(stem: string, suffix: string, maxBytes: int)
    ensures var cleaned := if Sanitize(stem) == "" then "file" else Sanitize(stem);
            var room := Max(maxBytes - |Encode(suffix)|, 1);
            SafeNamedFile(stem, suffix, maxBytes)
              == (if |Encode(cleaned)| <= room then cleaned
                  else if Truncated(cleaned, room) != "" then Truncated(cleaned, room) else "file") + suffix
  {
    hide Sanitize, Truncated, Encode;
    TruncatedIsLongest(if Sanitize(stem) == "" then "file" else Sanitize(stem), Budget(maxBytes, suffix));
  }
}

/** Captions and messages sent with HTML markup (telegram/captions.py): shrinking the
    title, then the link, until the parsed text fits Telegram's limit in UTF-16 units. */
module Captions {
  import opened Common
  import opened PyText

  const CAPTION_LIMIT := 1024
  const MESSAGE_LIMIT := 4096
  const UNLIMITED_TITLE_CAP := 750
  const ELLIPSIS := "…"

  // ------------------------------------------------------------ markup

  datatype Piece = Tag(name: string) | Text(text: string)

  function EscapeChar(c: char): (r: string)
    ensures r != ""
  {
    if c == '&' then "&amp;" else if c == '<' then "&lt;" else if c == '>' then "&gt;"
    else if c == '"' then "&quot;" else if c == '\'' then "&#x27;" else [c]
  }

  /** `html.escape`. */
  function Escape(s: string): string {
    if s == "" then "" else EscapeChar(s[0]) + Escape(s[1..])
  }

  function PrintPiece(p: Piece): string {
    match p
    case Tag(name) => "<" + name + ">"
    case Text(text) => Escape(text)
  }

  function Print(ps: seq<Piece>): string {
    if ps == [] then "" else PrintPiece(ps[0]) + Print(ps[1..])
  }

  function PlainPiece(p: Piece): string { if p.Text? then p.text else "" }

  function Plain(ps: seq<Piece>): string {
    if ps == [] then "" else PlainPiece(ps[0]) + Plain(ps[1..])
  }

  /** A character reference at the front, and how many characters it takes. */
  function Entity(s: string): (r: Option<(char, nat)>)
    ensures r.Some? ==> 1 <= r.value.1 <= |s|
  {
    if StartsWith(s, "&amp;") then Some(('&', 5))
    else if StartsWith(s, "&lt;") then Some(('<', 4))
    else if StartsWith(s, "&gt;") then Some(('>', 4))
    else if StartsWith(s, "&quot;") then Some(('"', 6))
    else if StartsWith(s, "&#x27;") then Some(('\'', 6))
    else None
  }

  /** The text of a message: tags dropped, references replaced. */
  function ParseHtml(s: string): string
    decreases |s|
  {
    if s == "" then ""
    else if s[0] == '<' && Find(s, '>') < |s| then ParseHtml(s[Find(s, '>') + 1..])
    else if Entity(s).Some? then [Entity(s).value.0] + ParseHtml(s[Entity(s).value.1..])
    else [s[0]] + ParseHtml(s[1..])
  }

  function CharUnits(c: char): nat { if c as int < 0x1_0000 then 1 else 2 }

  /** Length in UTF-16 code units. */
  function Units(s: string): nat {
    if s == "" then 0 else Units(s[..|s| - 1]) + CharUnits(s[|s| - 1])
  }

  /** `utf16_units`: the parser also strips the text it returns. */
  function Utf16Units(html: string): nat { Units(Strip(ParseHtml(html))) }

  predicate TagsAreClosed(ps: seq<Piece>) {
    forall k :: 0 <= k < |ps| && ps[k].Tag? ==> '>' !in ps[k].name
  }

  lemma ParseTag(name: string, rest: string)
    requires '>' !in name
    ensures ParseHtml(PrintPiece(Tag(name)) + rest) == ParseHtml(rest)
  {
    var s := PrintPiece(Tag(name)) + rest;
    assert s == ("<" + name) + ['>'] + rest;
    FindAfter("<" + name, '>', rest);
    assert s[|name| + 2..] == rest;
  }

  lemma StartsAlike(s: string, prefix: string, k: nat)
    requires k < |s| && k < |prefix|
    ensures StartsWith(s, prefix) ==> s[k] == prefix[k]
  {
    if StartsWith(s, prefix) {
      assert s[..|prefix|][k] == s[k];
    }
  }

  lemma EntityOf(c: char, rest: string)
    requires |EscapeChar(c)| > 1
    ensures Entity(EscapeChar(c) + rest) == Some((c, |EscapeChar(c)|))
  {
    hide StartsWith;
    var s := EscapeChar(c) + rest;
    PrefixStarts(EscapeChar(c), rest);
    assert s[1] == EscapeChar(c)[1];
    if c != '&' {
      StartsAlike(s, "&amp;", 1);
    }
    if c == '>' || c == '"' || c == '\'' {
      StartsAlike(s, "&lt;", 1);
    }
    if c == '"' || c == '\'' {
      StartsAlike(s, "&gt;", 1);
    }
    if c == '\'' {
      StartsAlike(s, "&quot;", 1);
    }
  }

  lemma PrefixStarts(a: string, b: string)
    ensures StartsWith(a + b, a)
  {
    assert (a + b)[..|a|] == a;
  }

  lemma PlainChar(c: char, rest: string)
    requires |EscapeChar(c)| == 1
    ensures Entity([c] + rest).None? && c != '<'
  {
    hide StartsWith;
    var s := [c] + rest;
    assert s[0] == c;
    StartsAlike(s, "&amp;", 0);
    StartsAlike(s, "&lt;", 0);
    StartsAlike(s, "&gt;", 0);
    StartsAlike(s, "&quot;", 0);
    StartsAlike(s, "&#x27;", 0);
  }

  lemma ParseChar(c: char, rest: string)
    ensures ParseHtml(EscapeChar(c) + rest) == [c] + ParseHtml(rest)
  {
    var s := EscapeChar(c) + rest;
    assert s[|EscapeChar(c)|..] == rest;
    if |EscapeChar(c)| > 1 {
      EntityOf(c, rest);
      assert s[0] == '&';
    } else {
      PlainChar(c, rest);
    }
  }

  lemma {:induction false} ParseEscape(t: string, rest: string)
    ensures ParseHtml(Escape(t) + rest) == t + ParseHtml(rest)
  {
    hide EscapeChar, ParseHtml;
    if t == "" {
      assert Escape(t) + rest == rest;
      assert t + ParseHtml(rest) == ParseHtml(rest);
    } else {
      assert Escape(t) + rest == EscapeChar(t[0]) + (Escape(t[1..]) + rest);
      ParseChar(t[0], Escape(t[1..]) + rest);
      ParseEscape(t[1..], rest);
      assert t == [t[0]] + t[1..];
      assert [t[0]] + (t[1..] + ParseHtml(rest)) == t + ParseHtml(rest);
    }
  }

  /** Parsing undoes escaping: whatever the dynamic values contain, the reader sees exactly
      them between the fixed texts. */
  lemma {:induction false} ParseUndoesPrint(ps: seq<Piece>)
    requires TagsAreClosed(ps)
    ensures ParseHtml(Print(ps)) == Plain(ps)
  {
    hide Escape, ParseHtml;
    if ps == [] {
      ParseNothing();
    } else {
      assert TagsAreClosed(ps[1..]);
      ParseUndoesPrint(ps[1..]);
      match ps[0]
      case Tag(name) =>
        ParseTag(name, Print(ps[1..]));
        assert "" + Plain(ps[1..]) == Plain(ps[1..]);
      case Text(text) => ParseEscape(text, Print(ps[1..]));
    }
  }

  lemma ParseNothing()
    ensures ParseHtml("") == ""
  {
  }

  lemma {:induction false} PlainConcat(a: seq<Piece>, b: seq<Piece>)
    ensures Plain(a + b) == Plain(a) + Plain(b)
  {
    if a == [] {
      assert a + b == b;
    } else {
      assert (a + b)[1..] == a[1..] + b;
      PlainConcat(a[1..], b);
    }
  }

  lemma {:induction false} PrintConcat(a: seq<Piece>, b: seq<Piece>)
    ensures Print(a + b) == Print(a) + Print(b)
  {
    if a == [] {
      assert a + b == b;
    } else {
      assert (a + b)[1..] == a[1..] + b;
      PrintConcat(a[1..], b);
    }
  }

  // ------------------------------------------------------------ units

  lemma {:induction false} UnitsConcat(a: string, b: string)
    ensures Units(a + b) == Units(a) + Units(b)
  {
    if b == "" {
      assert a + b == a;
    } else {
      assert (a + b)[..|a + b| - 1] == a + b[..|b| - 1];
      UnitsConcat(a, b[..|b| - 1]);
    }
  }

  lemma {:induction false} UnitsBounds(s: string)
    ensures |s| <= Units(s) <= 2 * |s|
  {
    if s != "" {
      UnitsBounds(s[..|s| - 1]);
    }
  }

  lemma UnitsOfPrefix(s: string, k: nat)
    requires k <= |s|
    ensures Units(s[..k]) + (|s| - k) <= Units(s)
  {
    assert s == s[..k] + s[k..];
    UnitsConcat(s[..k], s[k..]);
    UnitsBounds(s[k..]);
  }

  predicate StartsSolid(s: string) { s != "" && !IsSpace(s[0]) }
  predicate EndsSolid(s: string) { s != "" && !IsSpace(s[|s| - 1]) }

  lemma {:induction false} RStripLeft(a: string, b: string)
    ensures RStrip(a + b) == if RStrip(b) == "" then RStrip(a) else a + RStrip(b)
  {
    if b == "" {
      assert a + b == a;
    } else if IsSpace(b[|b| - 1]) {
      assert (a + b)[..|a + b| - 1] == a + b[..|b| - 1];
      RStripLeft(a, b[..|b| - 1]);
    }
  }

  /** Stripping a text that begins with `x` only shortens what follows `x`. */
  lemma StripKeeps(x: string, rest: string)
    requires StartsSolid(x)
    requires EndsSolid(x) || RStrip(rest) != ""
    ensures Strip(x + rest) == x + RStrip(rest)
  {
    RStripLeft(x, rest);
    assert LStrip(x + rest) == x + rest;
    assert RStrip(rest) == "" ==> x + RStrip(rest) == x;
  }

  lemma StripShortens(s: string)
    ensures Units(Strip(s)) <= Units(s)
  {
    hide LStrip, RStrip, Units;
    var l := LStrip(s);
    assert s == s[..|s| - |l|] + s[|s| - |l|..];
    UnitsConcat(s[..|s| - |l|], l);
    var r := RStrip(l);
    assert l == r + l[|r|..];
    UnitsConcat(r, l[|r|..]);
  }

  // ------------------------------------------------------------ layouts with two slots

  /** Fixed text around a shrinkable text and a shrinkable link. */
  datatype Layout = Layout(before: seq<Piece>, between: seq<Piece>, after: seq<Piece>)

  function Fill(l: Layout, t: string, u: string): seq<Piece> {
    l.before + [Text(t)] + l.between + [Text(u)] + l.after
  }

  function Html(l: Layout, t: string, u: string): string { Print(Fill(l, t, u)) }

  function Measured(l: Layout, t: string, u: string): nat { Utf16Units(Html(l, t, u)) }

  predicate WellFormed(l: Layout) {
    TagsAreClosed(l.before) && TagsAreClosed(l.between) && TagsAreClosed(l.after) && StartsSolid(Plain(l.before))
  }

  /** What follows the shrinkable text. */
  function Tail(l: Layout, u: string): string { Plain(l.between) + u + Plain(l.after) }

  function Reader(l: Layout, t: string, u: string): string { Plain(l.before) + t + Tail(l, u) }

  function FixedUnits(l: Layout): nat {
    Units(Plain(l.before)) + Units(Plain(l.between)) + Units(Plain(l.after))
  }

  lemma PlainOfText(t: string)
    ensures Plain([Text(t)]) == t
  {
    var ps := [Text(t)];
    assert ps[1..] == [];
    assert Plain(ps) == t + Plain(ps[1..]);
  }

  lemma PlainOfFill(l: Layout, t: string, u: string)
    ensures Plain(Fill(l, t, u)) == Reader(l, t, u)
  {
    hide Plain;
    var a := l.before + [Text(t)];
    var b := a + l.between;
    var c := b + [Text(u)];
    PlainConcat(l.before, [Text(t)]);
    PlainConcat(a, l.between);
    PlainConcat(b, [Text(u)]);
    PlainConcat(c, l.after);
    PlainOfText(t);
    PlainOfText(u);
    assert Plain(l.before) + t + Plain(l.between) + u + Plain(l.after)
        == Plain(l.before) + t + (Plain(l.between) + u + Plain(l.after));
  }

  /** What Telegram shows is the fixed text around exactly the given values. */
  lemma ReaderSees(l: Layout, t: string, u: string)
    requires WellFormed(l)
    ensures ParseHtml(Html(l, t, u)) == Reader(l, t, u)
  {
    hide ParseHtml, Plain, Print;
    assert TagsAreClosed(Fill(l, t, u));
    ParseUndoesPrint(Fill(l, t, u));
    PlainOfFill(l, t, u);
  }

  lemma {:induction false} TailUnits(l: Layout, t: string, u: string)
    ensures Units(Reader(l, t, u)) == FixedUnits(l) + Units(t) + Units(u)
  {
    hide Units, Plain;
    UnitsConcat(Plain(l.before) + t, Tail(l, u));
    UnitsConcat(Plain(l.before), t);
    UnitsConcat(Plain(l.between) + u, Plain(l.after));
    UnitsConcat(Plain(l.between), u);
  }

  lemma MeasuredAtMost(l: Layout, t: string, u: string)
    requires WellFormed(l)
    ensures Measured(l, t, u) <= FixedUnits(l) + Units(t) + Units(u)
  {
    hide Html, Reader, FixedUnits, Units, ParseHtml, Strip, WellFormed;
    ReaderSees(l, t, u);
    StripShortens(Reader(l, t, u));
    TailUnits(l, t, u);
  }

  /** Stripping cannot reach the shrinkable text. */
  predicate Anchored(l: Layout, t: string, u: string) {
    EndsSolid(t) || RStrip(Tail(l, u)) != ""
  }

  lemma MeasuredIs(l: Layout, t: string, u: string)
    requires WellFormed(l) && Anchored(l, t, u)
    ensures Measured(l, t, u) == Units(Plain(l.before)) + Units(t) + Units(RStrip(Tail(l, u)))
  {
    hide Html, Units, ParseHtml, Strip, Plain, RStrip, Tail;
    ReaderSees(l, t, u);
    StripKeeps(Plain(l.before) + t, Tail(l, u));
    UnitsConcat(Plain(l.before) + t, RStrip(Tail(l, u)));
    UnitsConcat(Plain(l.before), t);
  }

  lemma MeasuredWithLink(l: Layout, t: string, u: string)
    requires WellFormed(l) && EndsSolid(u)
    ensures Measured(l, t, u)
         == Units(Plain(l.before) + t + Plain(l.between)) + Units(u) + Units(RStrip(Plain(l.after)))
  {
    hide Html, Units, ParseHtml, Strip, Plain, RStrip;
    ReaderSees(l, t, u);
    var x := Plain(l.before) + t + Plain(l.between) + u;
    assert Reader(l, t, u) == x + Plain(l.after);
    StripKeeps(x, Plain(l.after));
    UnitsConcat(x, RStrip(Plain(l.after)));
    UnitsConcat(Plain(l.before) + t + Plain(l.between), u);
  }

  // ------------------------------------------------------------ shrinking

  function Keep(s: string, overflow: nat): nat { Max(|s| - overflow - 1, 0) }

  /** One round of the title loop. */
  function CutText(t: string, overflow: nat): string {
    if Keep(t, overflow) == 0 then "" else RStrip(t[..Keep(t, overflow)]) + ELLIPSIS
  }

  /** One round of the link loop. */
  function CutLink(u: string, overflow: nat): string { u[..Keep(u, overflow)] + ELLIPSIS }

  lemma EllipsisIsSolid(s: string)
    ensures EndsSolid(s + ELLIPSIS) && Units(ELLIPSIS) == 1 && Units(s + ELLIPSIS) == Units(s) + 1
  {
    UnitsConcat(s, ELLIPSIS);
    assert Units(ELLIPSIS) == Units(ELLIPSIS[..0]) + 1;
  }

  lemma CutTextUnits(t: string, overflow: nat)
    requires CutText(t, overflow) != ""
    ensures EndsSolid(CutText(t, overflow)) && Units(CutText(t, overflow)) + overflow <= Units(t)
  {
    hide Units, RStrip;
    var kept := t[..Keep(t, overflow)];
    EllipsisIsSolid(RStrip(kept));
    assert RStrip(kept) == t[..|RStrip(kept)|];
    UnitsOfPrefix(t, |RStrip(kept)|);
  }

  lemma CutLinkUnits(u: string, overflow: nat)
    requires 0 < overflow
    ensures EndsSolid(CutLink(u, overflow))
    ensures Keep(u, overflow) == 0 ==> CutLink(u, overflow) == ELLIPSIS
    ensures Keep(u, overflow) > 0 ==> Units(CutLink(u, overflow)) + overflow <= Units(u)
                                      && |CutLink(u, overflow)| == |u| - overflow
  {
    hide Units;
    EllipsisIsSolid(u[..Keep(u, overflow)]);
    UnitsOfPrefix(u, Keep(u, overflow));
  }

  function Overflow(l: Layout, t: string, u: string, limit: int): int { Measured(l, t, u) - limit }

  /** The title after its loop. */
  function ShrunkText(l: Layout, t: string, u: string, limit: int): string {
    if Overflow(l, t, u, limit) > 0 && t != "" then CutText(t, Overflow(l, t, u, limit)) else t
  }

  /** One round is enough: a title that is not emptied makes the message fit. */
  lemma OneCutIsEnough(l: Layout, t: string, u: string, limit: int)
    requires WellFormed(l) && (t != "" ==> Anchored(l, t, u))
    ensures var r := ShrunkText(l, t, u, limit);
            (r == "" || Overflow(l, r, u, limit) <= 0) && |r| <= |t|
  {
    hide Measured, WellFormed, Units, RStrip, Tail;
    var over := Overflow(l, t, u, limit);
    if over > 0 && t != "" && CutText(t, over) != "" {
      MeasuredIs(l, t, u);
      CutTextUnits(t, over);
      MeasuredIs(l, CutText(t, over), u);
    }
  }

  method ShrinkText(l: Layout, text: string, u: string, limit: int) returns (t: string)
    requires WellFormed(l) && (text != "" ==> Anchored(l, text, u))
    ensures t == ShrunkText(l, text, u, limit)
    ensures t == "" || Overflow(l, t, u, limit) <= 0
  {
    hide Measured, WellFormed, Anchored, CutText;
    OneCutIsEnough(l, text, u, limit);
    t := text;
    var overflow := Overflow(l, t, u, limit);
    while overflow > 0 && t != ""
      invariant overflow == Overflow(l, t, u, limit)
      invariant t == text || t == ShrunkText(l, text, u, limit)
      decreases t == text
    {
      var cut := Max(overflow, 1);
      var keep := Max(|t| - cut - 1, 0);
      CutTextIs(t, overflow);
      t := RStrip(t[..keep]) + (if keep > 0 then ELLIPSIS else "");
      overflow := Overflow(l, t, u, limit);
      if keep == 0 { break; }
    }
  }

  lemma CutTextIs(t: string, overflow: nat)
    requires overflow > 0
    ensures var keep := Max(|t| - Max(overflow, 1) - 1, 0);
            CutText(t, overflow) == RStrip(t[..keep]) + (if keep > 0 then ELLIPSIS else "")
  {
  }

  /** The link after one round of its loop. */
  function CutOnce(l: Layout, t: string, u: string, limit: int): string {
    if Overflow(l, t, u, limit) > 0 && |u| > 1 then CutLink(u, Overflow(l, t, u, limit)) else u
  }

  /** The link after its loop. */
  function ShrunkLink(l: Layout, t: string, u: string, limit: int): string {
    CutOnce(l, t, CutOnce(l, t, u, limit), limit)
  }

  /** A link that ends in visible text needs one round; white space at its end, which the
      parser strips from some layouts, can make a second one necessary. */
  lemma SecondCutIsEnough(l: Layout, t: string, u: string, limit: int)
    requires WellFormed(l) && EndsSolid(u)
    ensures var r := CutOnce(l, t, u, limit);
            (Overflow(l, t, r, limit) <= 0 || |r| <= 1) && |r| <= |u| && EndsSolid(r)
  {
    hide Measured, WellFormed, Units, RStrip, Keep, CutLink;
    var over := Overflow(l, t, u, limit);
    if over > 0 && |u| > 1 {
      CutLinkUnits(u, over);
      var r := CutLink(u, over);
      MeasuredWithLink(l, t, u);
      MeasuredWithLink(l, t, r);
      assert |ELLIPSIS| == 1;
    }
  }

  lemma TwoCutsAreEnough(l: Layout, t: string, u: string, limit: int)
    requires WellFormed(l)
    ensures var r := ShrunkLink(l, t, u, limit);
            Overflow(l, t, r, limit) <= 0 || |r| <= 1
  {
    hide Measured, WellFormed, Keep, CutLink;
    var over := Overflow(l, t, u, limit);
    if over > 0 && |u| > 1 {
      CutLinkUnits(u, over);
      SecondCutIsEnough(l, t, CutLink(u, over), limit);
    }
  }

  /** What a shrunk link looks like: the link, or a proper prefix of it and an ellipsis. */
  predicate LinkOrPrefix(u: string, r: string) {
    r == u || (r != "" && |r| <= |u| && r == u[..|r| - 1] + ELLIPSIS)
  }

  lemma ShrunkLinkIsPrefix(l: Layout, t: string, u: string, limit: int)
    ensures LinkOrPrefix(u, ShrunkLink(l, t, u, limit))
  {
    hide Overflow;
    var v := CutOnce(l, t, u, limit);
    assert LinkOrPrefix(u, v);
    var r := CutOnce(l, t, v, limit);
    assert r != v ==> r[..|r| - 1] == v[..|r| - 1];
    assert r != v && v != u ==> v[..|r| - 1] == u[..|r| - 1];
  }

  method ShrinkLink(l: Layout, t: string, link: string, limit: int) returns (u: string)
    requires WellFormed(l)
    ensures u == ShrunkLink(l, t, link, limit)
    ensures Overflow(l, t, u, limit) <= 0 || |u| <= 1
  {
    hide Measured, WellFormed;
    TwoCutsAreEnough(l, t, link, limit);
    u := link;
    var overflow := Overflow(l, t, u, limit);
    while overflow > 0 && |u| > 1
      invariant overflow == Overflow(l, t, u, limit)
      invariant u == link || u == CutOnce(l, t, link, limit) || u == ShrunkLink(l, t, link, limit)
      decreases |u|
    {
      var keep := Max(|u| - overflow - 1, 0);
      u := u[..keep] + ELLIPSIS;
      overflow := Overflow(l, t, u, limit);
      if keep == 0 { break; }
    }
  }

  /** Both loops in a row. */
  function Shrunk(l: Layout, t: string, u: string, limit: int): (r: (string, string)) {
    var text := ShrunkText(l, t, u, limit);
    (text, ShrunkLink(l, text, u, limit))
  }

  /** The message fits whenever the fixed text and two more units do, for every text and
      link; a message that fits already is left alone, and the link is only touched once
      the text is gone. */
  lemma ShrunkFits(l: Layout, t: string, u: string, limit: int)
    requires WellFormed(l) && (t != "" ==> Anchored(l, t, u))
    ensures var r := Shrunk(l, t, u, limit);
            && (FixedUnits(l) + 2 <= limit ==> Measured(l, r.0, r.1) <= limit)
            && (Measured(l, t, u) <= limit ==> r == (t, u))
            && (r.1 != u ==> r.0 == "")
            && (r.0 == t || r.0 == "" || exists k: nat :: k < |t| && r.0 == t[..k] + ELLIPSIS)
            && LinkOrPrefix(u, r.1)
  {
    hide Measured, WellFormed, Anchored, Units, Keep, RStrip, FixedUnits, CutLink;
    var text := ShrunkText(l, t, u, limit);
    var link := ShrunkLink(l, text, u, limit);
    OneCutIsEnough(l, t, u, limit);
    TwoCutsAreEnough(l, text, u, limit);
    ShrunkLinkIsPrefix(l, text, u, limit);
    if Measured(l, text, link) > limit {
      MeasuredAtMost(l, text, link);
      UnitsBounds(text);
      UnitsBounds(link);
    }
    if text != t && text != "" {
      KeptIsPrefix(t, Overflow(l, t, u, limit));
    }
  }

  lemma KeptIsPrefix(t: string, overflow: nat)
    requires CutText(t, overflow) != "" && overflow > 0
    ensures exists k: nat :: k < |t| && CutText(t, overflow) == t[..k] + ELLIPSIS
  {
    var kept := t[..Keep(t, overflow)];
    var k := |RStrip(kept)|;
    assert RStrip(kept) == t[..k];
    assert k < |t|;
  }

  // ------------------------------------------------------------ the three messages

  function TitleLimit(titleLength: nat): nat {
    if titleLength == 0 || titleLength >= 1000 then UNLIMITED_TITLE_CAP else titleLength
  }

  /** `str(n)`. */
  function IntText(n: int): string { if n < 0 then "-" + Numeral(-n, 10, 1) else Numeral(n, 10, 1) }

  function FormatDuration(seconds: int): string {
    IntText(seconds / 60) + ":" + Numeral(seconds % 60, 10, 2) + " דקות"
  }

  function DurationLine(duration: int): string {
    if duration != 0 then "⏱️ אורך: " + FormatDuration(duration) + "\n" else ""
  }

  function ResolutionLine(width: int, height: int): string {
    if width != 0 && height != 0 then "📐 רזולוציה: " + IntText(width) + "x" + IntText(height) + "\n" else ""
  }

  const SOURCE := [Tag("/b"), Text("\n\n🔗 מקור: ")]

  /** `_render`. */
  function UserLayout(kind: string, width: int, height: int, duration: int): Layout {
    if kind == "audio" then
      Layout([Text("🎵 "), Tag("b")], SOURCE,
             [Text("\n" + DurationLine(duration) + "⬇️ הקובץ מוכן להורדה\nשמיעה מהנה 🎧✨")])
    else if kind == "video" then
      Layout([Text("🎬 "), Tag("b")], SOURCE,
             [Text("\n" + ResolutionLine(width, height) + DurationLine(duration)
                   + "\n⬇️ הקובץ מוכן לצפייה והורדה\nצפייה מהנה 👀✨")])
    else Layout([Text("📁 "), Tag("b")], SOURCE, [])
  }

  const DESCRIPTION_LAYOUT :=
    Layout([Text("📋 "), Tag("b"), Text("תיאור מלא:"), Tag("/b"), Text("\n\n"), Tag("blockquote expandable")],
           [Tag("/blockquote")], [])

  function ArchiveLayout(userDisplay: string, userId: nat): Layout {
    Layout([Text("👤 משתמש: "), Text(userDisplay), Text("\n🆔 "), Text(Numeral(userId, 10, 1)), Text("\n📁 קובץ: ")],
           [Text("\n"), Tag("blockquote expandable"), Text("🔗 קישור: ")],
           [Tag("/blockquote")])
  }

  lemma PlainFirst(ps: seq<Piece>)
    requires ps != [] && ps[0].Text? && StartsSolid(ps[0].text)
    ensures StartsSolid(Plain(ps))
  {
  }

  lemma SourceTags()
    ensures TagsAreClosed(SOURCE)
  {
  }

  /** Every template begins with a symbol and closes its tags, whatever values it carries. */
  lemma UserLayoutIsWellFormed(kind: string, width: int, height: int, duration: int)
    ensures WellFormed(UserLayout(kind, width, height, duration))
  {
    hide Plain, DurationLine, ResolutionLine, StartsSolid;
    var l := UserLayout(kind, width, height, duration);
    SourceTags();
    PlainFirst(l.before) by {
      SymbolsAreSolid();
    }
  }

  lemma SymbolsAreSolid()
    ensures StartsSolid("🎵 ") && StartsSolid("🎬 ") && StartsSolid("📁 ") && StartsSolid("📋 ") && StartsSolid("👤 משתמש: ")
  {
  }

  lemma ArchiveLayoutIsWellFormed(userDisplay: string, userId: nat)
    ensures WellFormed(ArchiveLayout(userDisplay, userId))
  {
    hide Plain, Numeral, StartsSolid;
    SymbolsAreSolid();
    PlainFirst(ArchiveLayout(userDisplay, userId).before);
  }

  lemma DescriptionIsWellFormed()
    ensures WellFormed(DESCRIPTION_LAYOUT)
  {
    hide Plain, StartsSolid;
    SymbolsAreSolid();
    DescriptionTags();
    var l := DESCRIPTION_LAYOUT;
    PlainFirst(l.before);
    assert TagsAreClosed(l.before);
    assert TagsAreClosed(l.between) && TagsAreClosed(l.after);
  }

  lemma DescriptionTags()
    ensures '>' !in "b" && '>' !in "/b" && '>' !in "blockquote expandable" && '>' !in "/blockquote"
  {
  }

  lemma PlainSource()
    ensures Plain(SOURCE) == "\n\n🔗 מקור: "
  {
    PlainOfText("\n\n🔗 מקור: ");
    assert SOURCE[1..] == [Text("\n\n🔗 מקור: ")];
    assert Plain(SOURCE) == "" + Plain(SOURCE[1..]);
  }

  lemma {:induction false} SolidInside(s: string, k: nat)
    requires k < |s| && !IsSpace(s[k])
    ensures RStrip(s) != ""
  {
    hide IsSpace;
    if k < |s| - 1 && IsSpace(s[|s| - 1]) {
      SolidInside(s[..|s| - 1], k);
    }
  }

  lemma UserLayoutIsAnchored(kind: string, width: int, height: int, duration: int, t: string, u: string)
    ensures Anchored(UserLayout(kind, width, height, duration), t, u)
  {
    hide Plain, DurationLine, ResolutionLine, RStrip;
    var l := UserLayout(kind, width, height, duration);
    PlainSource();
    assert Plain(l.between) == "\n\n🔗 מקור: ";
    assert Tail(l, u)[2] == "\n\n🔗 מקור: "[2];
    SolidInside(Tail(l, u), 2);
  }

  lemma ArchiveIsAnchored(userDisplay: string, userId: nat, t: string, u: string)
    ensures Anchored(ArchiveLayout(userDisplay, userId), t, u)
  {
    hide RStrip, Numeral;
    var l := ArchiveLayout(userDisplay, userId);
    PlainConcat([Text("\n")], [Tag("blockquote expandable"), Text("🔗 קישור: ")]);
    PlainConcat([Tag("blockquote expandable")], [Text("🔗 קישור: ")]);
    PlainOfText("\n");
    PlainOfText("🔗 קישור: ");
    assert l.between == [Text("\n")] + [Tag("blockquote expandable"), Text("🔗 קישור: ")];
    assert Plain([Tag("blockquote expandable")]) == "";
    assert [Tag("blockquote expandable"), Text("🔗 קישור: ")] == [Tag("blockquote expandable")] + [Text("🔗 קישור: ")];
    assert Plain(l.between)[1] == '🔗';
    assert Tail(l, u)[1] == '🔗';
    SolidInside(Tail(l, u), 1);
  }

  lemma PlainPair(a: Piece, b: Piece)
    ensures Plain([a, b]) == PlainPiece(a) + PlainPiece(b)
  {
    assert [a, b][1..] == [b] && [b][1..] == [];
    assert Plain([b]) == PlainPiece(b) + Plain([]);
    assert PlainPiece(b) + "" == PlainPiece(b);
  }

  /** The fixed text of a signature is short: what is left of the limit is for the values. */
  lemma UserFrameIsShort(kind: string, width: int, height: int, duration: int)
    ensures FixedUnits(UserLayout(kind, width, height, duration))
         <= 160 + 2 * (|ResolutionLine(width, height)| + |DurationLine(duration)|)
  {
    hide Plain, Units, ResolutionLine, DurationLine;
    var l := UserLayout(kind, width, height, duration);
    PlainSource();
    PlainPair(l.before[0], l.before[1]);
    assert l.before == [l.before[0], l.before[1]];
    NothingPlain();
    if l.after != [] {
      PlainOfText(l.after[0].text);
      assert l.after == [Text(l.after[0].text)];
    }
    UnitsBounds(Plain(l.before));
    UnitsBounds(Plain(l.between));
    UnitsBounds(Plain(l.after));
  }

  /** At most as many digits as the number is bounded by. */
  lemma {:induction false} NumeralShort(n: nat, width: nat, k: nat)
    requires n < Pow(10, k) && width <= k && k > 0
    ensures |Numeral(n, 10, width)| <= k
    decreases k
  {
    if k > 1 && !(n < 10 && width <= 1) {
      NumeralShort(n / 10, if width == 0 then 0 else width - 1, k - 1);
    }
  }

  /** Numbers of at most nine digits. */
  predicate Nine(n: int) { -1_000_000_000 < n < 1_000_000_000 }

  lemma NineDigits(n: nat)
    requires n < 1_000_000_000
    ensures |Numeral(n, 10, 1)| <= 9 && |Numeral(n, 10, 2)| <= 9
  {
    hide Numeral;
    assert Pow(10, 9) == 1_000_000_000 by {
      assert Pow(10, 3) == 1000;
      assert Pow(10, 6) == 10 * (10 * (10 * Pow(10, 3)));
      assert Pow(10, 9) == 10 * (10 * (10 * Pow(10, 6)));
    }
    NumeralShort(n, 1, 9);
    NumeralShort(n, 2, 9);
  }

  lemma LinesAreShort(width: int, height: int, duration: int)
    requires Nine(width) && Nine(height) && Nine(duration)
    ensures |ResolutionLine(width, height)| <= 50 && |DurationLine(duration)| <= 50
  {
    hide Numeral;
    NineDigits(if width < 0 then -width else width);
    NineDigits(if height < 0 then -height else height);
    NineDigits(duration % 60);
    NineDigits(if duration / 60 < 0 then -(duration / 60) else duration / 60);
  }

  /** So a signature always fits beside a reservation of up to 600 units, for every title and
      link and every width, height and duration of up to nine digits. */
  lemma SignatureFits(kind: string, title: Option<string>, url: string, width: int, height: int, duration: int,
                      titleLength: nat, reserved: nat)
    requires Nine(width) && Nine(height) && Nine(duration) && reserved <= 600
    ensures Utf16Units(UserCaption(kind, title, url, width, height, duration, titleLength, reserved)) + reserved <= CAPTION_LIMIT
  {
    hide UserLayout, WellFormed, Anchored, Shrunk, Html, Utf16Units, FixedUnits, ResolutionLine, DurationLine, ShownTitle;
    var l := UserLayout(kind, width, height, duration);
    var shown := ShownTitle(title, titleLength);
    LinesAreShort(width, height, duration);
    UserFrameIsShort(kind, width, height, duration);
    UserLayoutIsWellFormed(kind, width, height, duration);
    UserLayoutIsAnchored(kind, width, height, duration, shown, url);
    ShrunkFits(l, shown, url, CAPTION_LIMIT - reserved);
  }

  lemma NothingPlain()
    ensures Plain([]) == ""
  {
  }

  function OrUnknown(s: string): string { if s == "" then "Unknown" else s }

  function TitleText(title: Option<string>): string { if title.Some? then Strip(title.value) else "" }

  function ShownTitle(title: Option<string>, titleLength: nat): string {
    var t := OrUnknown(TitleText(title));
    t[..Min(TitleLimit(titleLength), |t|)]
  }

  /** The signature as a function of its inputs. */
  function UserCaption(kind: string, title: Option<string>, url: string, width: int, height: int, duration: int,
                       titleLength: nat, reserved: nat): string
  {
    var l := UserLayout(kind, width, height, duration);
    var r := Shrunk(l, ShownTitle(title, titleLength), url, CAPTION_LIMIT - reserved);
    Html(l, r.0, r.1)
  }

  method BuildUserCaption(kind: string, title: Option<string>, url: string, width: int, height: int, duration: int,
                          titleLength: nat, reserved: nat) returns (caption: string)
    ensures caption == UserCaption(kind, title, url, width, height, duration, titleLength, reserved)
    ensures FixedUnits(UserLayout(kind, width, height, duration)) + 2 <= CAPTION_LIMIT - reserved
            ==> Utf16Units(caption) + reserved <= CAPTION_LIMIT
  {
    hide UserLayout, WellFormed, Anchored, Shrunk, Html, Utf16Units, FixedUnits;
    var l := UserLayout(kind, width, height, duration);
    UserLayoutIsWellFormed(kind, width, height, duration);
    var shownTitle := OrUnknown(TitleText(title));
    shownTitle := shownTitle[..Min(TitleLimit(titleLength), |shownTitle|)];
    var limit := CAPTION_LIMIT - reserved;
    UserLayoutIsAnchored(kind, width, height, duration, shownTitle, url);
    ShrunkFits(l, shownTitle, url, limit);
    ShrunkIs(l, shownTitle, url, limit);
    shownTitle := ShrinkText(l, shownTitle, url, limit);
    var shownUrl := ShrinkLink(l, shownTitle, url, limit);
    caption := Html(l, shownTitle, shownUrl);
  }

  lemma ShrunkIs(l: Layout, t: string, u: string, limit: int)
    ensures Shrunk(l, t, u, limit) == (ShrunkText(l, t, u, limit), ShrunkLink(l, ShrunkText(l, t, u, limit), u, limit))
  {
  }

  /** The paragraphs of the "full description" message. */
  function FullText(title: Option<string>, description: Option<string>): string {
    var a, b := TitleText(title), TitleText(description);
    if a == "" then b else if b == "" then a else a + "\n\n" + b
  }

  function DescriptionMessage(title: Option<string>, description: Option<string>): Option<string> {
    var text := FullText(title, description);
    if text == "" then None
    else Some(Html(DESCRIPTION_LAYOUT, ShrunkText(DESCRIPTION_LAYOUT, text, "", MESSAGE_LIMIT), ""))
  }

  lemma FullTextIsSolid(title: Option<string>, description: Option<string>)
    ensures FullText(title, description) != "" ==> EndsSolid(FullText(title, description))
  {
    hide Strip;
  }

  lemma DescriptionFrame()
    ensures FixedUnits(DESCRIPTION_LAYOUT) <= 100
  {
    var l := DESCRIPTION_LAYOUT;
    assert Plain(l.after) == "";
    assert l.between[1..] == [];
    assert Plain(l.between) == "" + Plain(l.between[1..]);
    var b := l.before;
    assert b[1..] == [Tag("b"), Text("תיאור מלא:"), Tag("/b"), Text("\n\n"), Tag("blockquote expandable")];
    assert b[2..] == [Text("תיאור מלא:"), Tag("/b"), Text("\n\n"), Tag("blockquote expandable")];
    assert b[3..] == [Tag("/b"), Text("\n\n"), Tag("blockquote expandable")];
    assert b[4..] == [Text("\n\n"), Tag("blockquote expandable")];
    assert b[5..] == [Tag("blockquote expandable")];
    assert b[6..] == [];
    assert |Plain(b)| == |Plain(b[1..])| + 2;
    assert |Plain(b[1..])| == |Plain(b[2..])|;
    assert |Plain(b[2..])| == |Plain(b[3..])| + 10;
    assert |Plain(b[3..])| == |Plain(b[4..])|;
    assert |Plain(b[4..])| == |Plain(b[5..])| + 2;
    assert |Plain(b[5..])| == |Plain(b[6..])|;
    UnitsBounds(Plain(b));
  }

  /** The description message always fits a message, with no condition on its inputs. */
  method BuildDescriptionMessage(title: Option<string>, description: Option<string>) returns (message: Option<string>)
    ensures message == DescriptionMessage(title, description)
    ensures message.None? <==> TitleText(title) == "" && TitleText(description) == ""
    ensures message.Some? ==> Utf16Units(message.value) <= MESSAGE_LIMIT
  {
    hide WellFormed, Html, Utf16Units, FixedUnits, Strip, ShrunkText, Units;
    var fullText := FullText(title, description);
    if fullText == "" {
      return None;
    }
    var l := DESCRIPTION_LAYOUT;
    DescriptionIsWellFormed();
    FullTextIsSolid(title, description);
    var text := ShrinkText(l, fullText, "", MESSAGE_LIMIT);
    if text == "" {
      DescriptionFrame();
      MeasuredAtMost(l, "", "");
      UnitsBounds("");
    }
    message := Some(Html(l, text, ""));
  }

  method BuildArchiveCaption(userDisplay: string, userId: nat, filename: string, url: string) returns (caption: string)
    ensures var l := ArchiveLayout(userDisplay, userId);
            var r := Shrunk(l, filename, url, CAPTION_LIMIT);
            && caption == Html(l, r.0, r.1)
            && (FixedUnits(l) + 2 <= CAPTION_LIMIT ==> Utf16Units(caption) <= CAPTION_LIMIT)
  {
    hide ArchiveLayout, WellFormed, Anchored, Shrunk, Html, Utf16Units, FixedUnits;
    var l := ArchiveLayout(userDisplay, userId);
    ArchiveLayoutIsWellFormed(userDisplay, userId);
    ArchiveIsAnchored(userDisplay, userId, filename, url);
    ShrunkFits(l, filename, url, CAPTION_LIMIT);
    ShrunkIs(l, filename, url, CAPTION_LIMIT);
    var shownName := ShrinkText(l, filename, url, CAPTION_LIMIT);
    var shownUrl := ShrinkLink(l, shownName, url, CAPTION_LIMIT);
    caption := Html(l, shownName, shownUrl);
  }

  // ------------------------------------------------------------ part labels

  function PartText(index: nat, total: nat): string {
    "📎 חלק " + Numeral(index, 10, 1) + "/" + Numeral(total, 10, 1)
  }

  function PartLabel(index: nat, total: nat): string { Escape(PartText(index, total)) }

  function DocPartText(index: nat, total: nat, filename: string): string { PartText(index, total) + ": " + filename }

  function DocPartLabel(index: nat, total: nat, filename: string): string { Escape(DocPartText(index, total, filename)) }

  function WithPartLabel(above: string, full: string): string { above + "\n\n" + full }

  function ReservedFor(above: string): nat { if above == "" then 0 else Utf16Units(above) + 2 }

  lemma ParseWholeEscape(t: string)
    ensures ParseHtml(Escape(t)) == t
  {
    ParseEscape(t, "");
    assert Escape(t) + "" == Escape(t);
    assert t + "" == t;
  }

  lemma ParseBreak(html: string)
    ensures ParseHtml("\n\n" + html) == "\n\n" + ParseHtml(html)
  {
    hide ParseHtml;
    ParseChar('\n', "\n" + html);
    ParseChar('\n', html);
    assert ['\n'] + ("\n" + html) == "\n\n" + html;
    assert ['\n'] + html == "\n" + html;
    assert ['\n'] + (['\n'] + ParseHtml(html)) == "\n\n" + ParseHtml(html);
  }

  lemma UnitsOfBreak()
    ensures Units("\n\n") == 2
  {
    UnitsConcat("\n", "\n");
    assert "\n" + "\n" == "\n\n";
    assert "\n"[..0] == "";
    assert Units("\n") == Units("\n"[..0]) + 1;
  }

  lemma LabelledParses(text: string, full: string)
    ensures ParseHtml(WithPartLabel(Escape(text), full)) == text + ("\n\n" + ParseHtml(full))
  {
    hide ParseHtml, Escape;
    assert WithPartLabel(Escape(text), full) == Escape(text) + ("\n\n" + full);
    ParseEscape(text, "\n\n" + full);
    ParseBreak(full);
  }

  /** The label and the caption below it take their lengths plus two, plus whatever white
      space the label ends with: that part is stripped when the label is measured alone, so
      it is the one thing the reservation does not cover. */
  lemma LabelledUnits(text: string, full: string)
    requires StartsSolid(text) && StartsSolid(ParseHtml(full))
    ensures Utf16Units(WithPartLabel(Escape(text), full))
         == ReservedFor(Escape(text)) + (Units(text) - Units(RStrip(text))) + Utf16Units(full)
  {
    hide ParseHtml, Escape, Strip, RStrip, Units;
    LabelledParses(text, full);
    ParseWholeEscape(text);
    StripSolid(text);
    StripSolid(ParseHtml(full));
    StripLabelled(text, ParseHtml(full));
    var shown := RStrip(ParseHtml(full));
    UnitsConcat(text, "\n\n" + shown);
    UnitsConcat("\n\n", shown);
    UnitsOfBreak();
    EscapeOfSolid(text);
  }

  lemma EscapeOfSolid(text: string)
    requires text != ""
    ensures Escape(text) != ""
  {
  }

  lemma StripSolid(s: string)
    requires StartsSolid(s)
    ensures Strip(s) == RStrip(s) && RStrip(s) != ""
  {
    SolidInside(s, 0);
  }

  lemma StripLabelled(text: string, below: string)
    requires StartsSolid(text) && StartsSolid(below)
    ensures Strip(text + ("\n\n" + below)) == text + ("\n\n" + RStrip(below))
  {
    SolidInside(below, 0);
    RStripLeft("\n\n", below);
    StripKeeps(text, "\n\n" + below);
  }

  /** What the reservation leaves unused of the limit. */
  function Spare(text: string, full: string): int { CAPTION_LIMIT - ReservedFor(Escape(text)) - Utf16Units(full) }

  /** Label and caption stay within the limit exactly when the white space the label ends with
      fits into what the caption left unused. A caption never takes more than its share, so a
      label that ends in visible text always fits. */
  lemma LabelledCaptionFits(text: string, kind: string, title: Option<string>, url: string, width: int, height: int,
                            duration: int, titleLength: nat)
    requires StartsSolid(text)
    ensures var full := UserCaption(kind, title, url, width, height, duration, titleLength, ReservedFor(Escape(text)));
            && (Utf16Units(WithPartLabel(Escape(text), full)) <= CAPTION_LIMIT
                <==> Units(text) - Units(RStrip(text)) <= Spare(text, full))
            && (FixedUnits(UserLayout(kind, width, height, duration)) + 2 + ReservedFor(Escape(text)) <= CAPTION_LIMIT
                ==> Spare(text, full) >= 0)
    ensures EndsSolid(text) ==> Units(text) == Units(RStrip(text))
  {
    hide UserLayout, WellFormed, Anchored, Shrunk, Utf16Units, FixedUnits, Escape, StartsSolid, ParseHtml, Units, Html;
    var l := UserLayout(kind, width, height, duration);
    var shown := ShownTitle(title, titleLength);
    var limit := CAPTION_LIMIT - ReservedFor(Escape(text));
    UserLayoutIsWellFormed(kind, width, height, duration);
    UserLayoutIsAnchored(kind, width, height, duration, shown, url);
    ShrunkFits(l, shown, url, limit);
    var r := Shrunk(l, shown, url, limit);
    LayoutStartsSolid(l, r.0, r.1);
    LabelledUnits(text, Html(l, r.0, r.1));
  }

  // A label that ends in white space, and a caption that leaves nothing unused.

  function Repeated(n: nat): string { seq(n, _ => 'u') }

  lemma {:induction false} RepeatedUnits(n: nat)
    ensures Units(Repeated(n)) == n && (n > 0 ==> EndsSolid(Repeated(n)))
  {
    if n > 0 {
      assert Repeated(n)[..n - 1] == Repeated(n - 1);
      RepeatedUnits(n - 1);
    }
  }

  const PLAIN_LAYOUT := UserLayout("document", 0, 0, 0)

  lemma PlainLayoutUnits(u: string)
    requires EndsSolid(u)
    ensures Measured(PLAIN_LAYOUT, "a", u) == FixedUnits(PLAIN_LAYOUT) + 1 + Units(u)
    ensures FixedUnits(PLAIN_LAYOUT) <= 160
  {
    hide Plain, Units, Html, Utf16Units, RStrip, Strip, IntText;
    var l := PLAIN_LAYOUT;
    UserLayoutIsWellFormed("document", 0, 0, 0);
    UserFrameIsShort("document", 0, 0, 0);
    NothingPlain();
    MeasuredWithLink(l, "a", u);
    UnitsConcat(Plain(l.before) + "a", Plain(l.between));
    UnitsConcat(Plain(l.before), "a");
    OneUnit();
    EmptyUnits();
  }

  lemma OneUnit()
    ensures Units("a") == 1
  {
    assert "a"[..0] == "";
  }

  lemma EmptyUnits()
    ensures Units("") == 0 && RStrip("") == ""
  {
  }

  lemma ShortTitle(t: string)
    requires StartsSolid(t) && EndsSolid(t) && |t| <= UNLIMITED_TITLE_CAP
    ensures ShownTitle(Some(t), 0) == t
  {
    hide Strip;
    StripClean(t);
    assert t[..|t|] == t;
  }

  /** A link that makes the caption exactly as long as it may be. */
  lemma FullCaption(reserved: nat) returns (url: string)
    requires reserved <= 800
    ensures Utf16Units(UserCaption("document", Some("a"), url, 0, 0, 0, 0, reserved)) == CAPTION_LIMIT - reserved
  {
    hide Utf16Units, Units, FixedUnits, WellFormed, Anchored, Shrunk, Html, ShownTitle;
    var l := PLAIN_LAYOUT;
    var limit := CAPTION_LIMIT - reserved;
    RepeatedUnits(1);
    PlainLayoutUnits(Repeated(1));
    var n := limit - FixedUnits(l) - 1;
    url := Repeated(n);
    RepeatedUnits(n);
    PlainLayoutUnits(url);
    ShortTitle("a");
    UserLayoutIsWellFormed("document", 0, 0, 0);
    UserLayoutIsAnchored("document", 0, 0, 0, "a", url);
    ShrunkFits(l, "a", url, limit);
  }

  /** Every label that ends in white space, with a caption that uses its whole share, is too long. */
  lemma LabelOverflows(text: string) returns (url: string)
    requires StartsSolid(text) && !EndsSolid(text) && ReservedFor(Escape(text)) <= 800
    ensures var full := UserCaption("document", Some("a"), url, 0, 0, 0, 0, ReservedFor(Escape(text)));
            Utf16Units(WithPartLabel(Escape(text), full)) > CAPTION_LIMIT
  {
    hide UserLayout, Utf16Units, Escape, StartsSolid, Units, UserCaption;
    url := FullCaption(ReservedFor(Escape(text)));
    LabelledCaptionFits(text, "document", Some("a"), url, 0, 0, 0, 0);
    EndsInSpace(text);
  }

  lemma EndsInSpace(text: string)
    requires StartsSolid(text) && !EndsSolid(text)
    ensures Units(text) > Units(RStrip(text))
  {
    hide Units, IsSpace;
    var r := RStrip(text);
    assert |r| < |text|;
    assert r == text[..|r|];
    UnitsOfPrefix(text, |r|);
  }

  /** Such a label: the file name ends in a space. */
  lemma LabelWitness() returns (url: string)
    ensures var text := DocPartText(1, 2, "clip ");
            var full := UserCaption("document", Some("a"), url, 0, 0, 0, 0, ReservedFor(Escape(text)));
            Utf16Units(WithPartLabel(Escape(text), full)) > CAPTION_LIMIT
  {
    hide UserCaption, Escape, Utf16Units, Units, Strip;
    var text := DocPartText(1, 2, "clip ");
    assert text[|text| - 1] == ' ' && text[0] == "📎 חלק "[0];
    assert |text| <= 40;
    ReservedAtMost(text);
    url := LabelOverflows(text);
  }

  lemma ReservedAtMost(text: string)
    ensures ReservedFor(Escape(text)) <= 2 * |text| + 2
  {
    hide Escape, Units, ParseHtml, Strip;
    ParseWholeEscape(text);
    StripShortens(text);
    UnitsBounds(text);
  }

  lemma LayoutStartsSolid(l: Layout, t: string, u: string)
    requires WellFormed(l)
    ensures StartsSolid(ParseHtml(Html(l, t, u)))
  {
    hide ParseHtml, Html, Plain;
    ReaderSees(l, t, u);
  }
}

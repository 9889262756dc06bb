/** What the captions say (telegram/captions.py): the text a user reads, and how much of the title
    and the link is left of it. */
module CaptionTexts {
  import opened Common
  import opened PyText
  import opened PyReading
  import opened Captions

  // ------------------------------------------------------------ no more is cut than needed

  /** `r` is `t` without its last `n` characters and the white space before them, with an ellipsis. */
  ghost predicate CutBy(t: string, n: nat, r: string) {
    n < |t| && exists k :: 0 <= k <= |t| - n && r == t[..k] + "…" && forall i :: k <= i < |t| - n ==> IsSpace(t[i])
  }

  lemma CutTextCuts(t: string, overflow: nat)
    requires overflow > 0
    ensures if overflow + 1 < |t| then CutBy(t, overflow + 1, CutText(t, overflow)) else CutText(t, overflow) == ""
  {
    hide RStrip;
    CutTextIs(t, overflow);
    var keep := Max(|t| - overflow - 1, 0);
    if keep > 0 {
      var k := |RStrip(t[..keep])|;
      assert RStrip(t[..keep]) == t[..k];
      assert forall i :: k <= i < keep ==> IsSpace(t[..keep][i]);
    } else {
      assert t[..0] == "";
    }
  }

  /** A text that is too long by `n` units loses `n` characters and one for the ellipsis, or all of
      them if it has no more; only then is the link cut, in the same way. */
  lemma NoMoreIsCut(l: Layout, t: string, u: string, limit: int)
    requires WellFormed(l) && (t != "" ==> Anchored(l, t, u))
    ensures var r, n := Shrunk(l, t, u, limit), Measured(l, t, u) - limit;
            && (n <= 0 ==> r == (t, u))
            && (n > 0 && n + 1 < |t| ==> CutBy(t, n + 1, r.0) && r.1 == u)
            && (n > 0 && n + 1 >= |t| ==> r.0 == "")
    ensures var r, m := Shrunk(l, t, u, limit), Measured(l, "", u) - limit;
            && (r.0 == "" && (m <= 0 || |u| <= 1) ==> r.1 == u)
            && (r.0 == "" && m > 0 && |u| > m + 1 ==>
                  var v := u[..|u| - m - 1] + "…";
                  if Measured(l, "", v) <= limit then r.1 == v else |r.1| <= |v|)
  {
    hide Measured, WellFormed, Anchored, CutText;
    ShrunkIs(l, t, u, limit);
    OneCutIsEnough(l, t, u, limit);
    var n := Measured(l, t, u) - limit;
    if n > 0 {
      CutTextCuts(t, n);
    }
    LinkCuts(l, u, limit);
    if ShrunkText(l, t, u, limit) != "" {
      LinkStays(l, ShrunkText(l, t, u, limit), u, limit);
    }
  }

  lemma LinkStays(l: Layout, t: string, u: string, limit: int)
    requires Overflow(l, t, u, limit) <= 0
    ensures ShrunkLink(l, t, u, limit) == u
  {
    hide Measured;
  }

  lemma LinkCuts(l: Layout, u: string, limit: int)
    ensures var r, m := ShrunkLink(l, "", u, limit), Measured(l, "", u) - limit;
            && (m <= 0 || |u| <= 1 ==> r == u)
            && (m > 0 && |u| > m + 1 ==>
                  var v := u[..|u| - m - 1] + "…";
                  if Measured(l, "", v) <= limit then r == v else |r| <= |v|)
  {
    hide Measured;
  }

  // ------------------------------------------------------------ the signature

  /** The length as `m:ss`, or nothing for 0. */
  function LengthLine(duration: int): string {
    if duration == 0 then "" else "⏱️ אורך: " + (IntText(duration / 60) + ":" + Numeral(duration % 60, 10, 2) + " דקות") + "\n"
  }

  /** Width by height, or nothing if one of them is 0. */
  function SizeLine(width: int, height: int): string {
    if width == 0 || height == 0 then "" else "📐 רזולוציה: " + IntText(width) + "x" + IntText(height) + "\n"
  }

  function LastLines(kind: string, width: int, height: int, duration: int): string {
    if kind == "audio" then "\n" + LengthLine(duration) + "⬇️ הקובץ מוכן להורדה\nשמיעה מהנה 🎧✨"
    else if kind == "video" then
      "\n" + SizeLine(width, height) + LengthLine(duration) + "\n⬇️ הקובץ מוכן לצפייה והורדה\nצפייה מהנה 👀✨"
    else ""
  }

  /** What a user reads under a file with title `t` and link `u`. */
  function Signature(kind: string, t: string, u: string, width: int, height: int, duration: int): string {
    (if kind == "audio" then "🎵 " else if kind == "video" then "🎬 " else "📁 ")
    + t + ("\n\n🔗 מקור: " + u + LastLines(kind, width, height, duration))
  }

  lemma PlainOfPair(text: string, name: string)
    ensures Plain([Text(text), Tag(name)]) == text
  {
    PlainPair(Text(text), Tag(name));
    assert text + "" == text;
  }

  lemma UserReads(kind: string, t: string, u: string, width: int, height: int, duration: int)
    ensures ParseHtml(Html(UserLayout(kind, width, height, duration), t, u)) == Signature(kind, t, u, width, height, duration)
  {
    hide Html, ParseHtml, Plain, IntText, Numeral;
    var l := UserLayout(kind, width, height, duration);
    UserLayoutIsWellFormed(kind, width, height, duration);
    ReaderSees(l, t, u);
    PlainSource();
    PlainOfPair(l.before[0].text, "b");
    assert l.before == [Text(l.before[0].text), Tag("b")];
    if l.after != [] {
      PlainOfText(l.after[0].text);
      assert l.after == [Text(l.after[0].text)];
    } else {
      NothingPlain();
    }
    SignatureIs(kind, t, u, width, height, duration, l);
  }

  lemma SignatureIs(kind: string, t: string, u: string, width: int, height: int, duration: int, l: Layout)
    requires l == UserLayout(kind, width, height, duration)
    requires Plain(l.before) == l.before[0].text && Plain(l.between) == "\n\n🔗 מקור: "
    requires Plain(l.after) == if l.after == [] then "" else l.after[0].text
    ensures Reader(l, t, u) == Signature(kind, t, u, width, height, duration)
  {
    hide Plain, DurationLine, ResolutionLine, LengthLine, SizeLine;
    LinesAre(width, height, duration);
    assert "\n" + ResolutionLine(width, height) + DurationLine(duration) + "\n⬇️ הקובץ מוכן לצפייה והורדה\nצפייה מהנה 👀✨"
        == "\n" + SizeLine(width, height) + LengthLine(duration) + "\n⬇️ הקובץ מוכן לצפייה והורדה\nצפייה מהנה 👀✨";
  }

  lemma LinesAre(width: int, height: int, duration: int)
    ensures DurationLine(duration) == LengthLine(duration) && ResolutionLine(width, height) == SizeLine(width, height)
  {
    hide IntText, Numeral;
  }

  /** The characters of the title that are kept: as many as the setting says, 750 for 0 and from
      1000 on. */
  predicate IsTitle(title: Option<string>, titleLength: nat, shown: string) {
    var whole := if title.None? || Strip(title.value) == "" then "Unknown" else Strip(title.value);
    var most := if 1 <= titleLength <= 999 then titleLength else 750;
    shown == if |whole| <= most then whole else whole[..most]
  }

  /** Under every file stands its title, link, resolution and length, with the title as the setting
      cuts it. If that does not fit into 1024 units less the reserved ones, exactly as much of the
      title is cut as does not fit, and of the link only if no title is left. */
  lemma WhatTheUserReads(kind: string, title: Option<string>, url: string, width: int, height: int, duration: int,
                         titleLength: nat, reserved: nat) returns (shown: string, t: string, u: string)
    ensures IsTitle(title, titleLength, shown)
    ensures ParseHtml(UserCaption(kind, title, url, width, height, duration, titleLength, reserved))
         == Signature(kind, t, u, width, height, duration)
    ensures var n := Units(Strip(Signature(kind, shown, url, width, height, duration))) - (1024 - reserved);
            && (n <= 0 ==> t == shown && u == url)
            && (n > 0 && n + 1 < |shown| ==> CutBy(shown, n + 1, t) && u == url)
            && (n > 0 && n + 1 >= |shown| ==> t == "")
    ensures Nine(width) && Nine(height) && Nine(duration) && reserved <= 600 ==>
              Units(Strip(Signature(kind, t, u, width, height, duration))) + reserved <= 1024
  {
    hide Html, ParseHtml, Shrunk, Signature, UserLayout, Units, Strip, WellFormed, Anchored, CutBy;
    shown := ShownTitle(title, titleLength);
    TitleIs(title, titleLength);
    var l := UserLayout(kind, width, height, duration);
    UserLayoutIsWellFormed(kind, width, height, duration);
    UserLayoutIsAnchored(kind, width, height, duration, shown, url);
    NoMoreIsCut(l, shown, url, 1024 - reserved);
    var r := Shrunk(l, shown, url, 1024 - reserved);
    t, u := r.0, r.1;
    UserReads(kind, shown, url, width, height, duration);
    UserReads(kind, t, u, width, height, duration);
    if Nine(width) && Nine(height) && Nine(duration) && reserved <= 600 {
      SignatureFits(kind, title, url, width, height, duration, titleLength, reserved);
    }
  }

  lemma TitleIs(title: Option<string>, titleLength: nat)
    ensures IsTitle(title, titleLength, ShownTitle(title, titleLength))
  {
    hide Strip;
    var whole := if title.None? || Strip(title.value) == "" then "Unknown" else Strip(title.value);
    assert whole[..|whole|] == whole;
  }

  /** The numbers of a caption: the decimal digits of the number, as many as it needs, after a
      minus if it is negative. */
  lemma WhatNumbersAreShown(n: int)
    ensures ParseInt(IntText(n)) == Some(n)
    ensures n == 0 ==> IntText(n) == "0"
    ensures n > 0 ==> '1' <= IntText(n)[0] <= '9'
    ensures n < 0 ==> IntText(n)[0] == '-' && '1' <= IntText(n)[1] <= '9'
  {
    hide Numeral, ParseInt;
    var m := if n < 0 then -n else n;
    NoLeadingZero(m, 1);
    PrintedInt("-", m);
    UnsignedInt(m);
  }

  // ------------------------------------------------------------ the other messages

  /** What the operators read above an archived copy. */
  lemma WhatTheOperatorsRead(userDisplay: string, userId: nat, t: string, u: string)
    ensures ParseHtml(Html(ArchiveLayout(userDisplay, userId), t, u))
         == "👤 משתמש: " + userDisplay + "\n🆔 " + Numeral(userId, 10, 1) + "\n📁 קובץ: " + t + "\n🔗 קישור: " + u
  {
    hide Html, ParseHtml, Plain, Numeral;
    var l := ArchiveLayout(userDisplay, userId);
    ArchiveLayoutIsWellFormed(userDisplay, userId);
    ReaderSees(l, t, u);
    PlainOfArchive(userDisplay, userId);
  }

  lemma PlainOfArchive(userDisplay: string, userId: nat)
    ensures var l := ArchiveLayout(userDisplay, userId);
            && Plain(l.before) == "👤 משתמש: " + userDisplay + "\n🆔 " + Numeral(userId, 10, 1) + "\n📁 קובץ: "
            && Plain(l.between) == "\n🔗 קישור: " && Plain(l.after) == ""
  {
    hide Plain, Numeral;
    var l := ArchiveLayout(userDisplay, userId);
    var b := l.before;
    assert b == [b[0]] + ([b[1]] + ([b[2]] + ([b[3]] + [b[4]])));
    PlainConcat([b[0]], [b[1]] + ([b[2]] + ([b[3]] + [b[4]])));
    PlainConcat([b[1]], [b[2]] + ([b[3]] + [b[4]]));
    PlainConcat([b[2]], [b[3]] + [b[4]]);
    PlainConcat([b[3]], [b[4]]);
    forall k | 0 <= k < 5 ensures Plain([b[k]]) == b[k].text {
      PlainOfText(b[k].text);
      assert b[k] == Text(b[k].text);
    }
    PlainOfTags();
    assert l.between == [Text("\n")] + [Tag("blockquote expandable"), Text("🔗 קישור: ")];
    assert [Tag("blockquote expandable"), Text("🔗 קישור: ")] == [Tag("blockquote expandable")] + [Text("🔗 קישור: ")];
    PlainConcat([Text("\n")], [Tag("blockquote expandable"), Text("🔗 קישור: ")]);
    PlainConcat([Tag("blockquote expandable")], [Text("🔗 קישור: ")]);
    PlainOfText("\n");
    PlainOfText("🔗 קישור: ");
  }

  lemma PlainOfTags()
    ensures Plain([Tag("blockquote expandable")]) == "" && Plain([Tag("/blockquote")]) == ""
  {
  }

  /** The description message: the title above the description, under a heading, and no more of it
      is cut than does not fit into 4096 units. There is none if both are blank. */
  lemma WhatTheDescriptionSays(title: Option<string>, description: Option<string>) returns (whole: string, t: string)
    ensures var a, b := (if title.Some? then Strip(title.value) else ""), (if description.Some? then Strip(description.value) else "");
            whole == if a == "" then b else if b == "" then a else a + "\n\n" + b
    ensures DescriptionMessage(title, description).None? <==> whole == ""
    ensures whole != "" ==> ParseHtml(DescriptionMessage(title, description).value) == "📋 תיאור מלא:\n\n" + t
    ensures var n := Units(Strip("📋 תיאור מלא:\n\n" + whole)) - 4096;
            && (n <= 0 ==> t == whole)
            && (n > 0 && n + 1 < |whole| ==> CutBy(whole, n + 1, t))
            && (n > 0 && n + 1 >= |whole| ==> t == "")
  {
    hide Html, ParseHtml, Strip, Units, CutBy, CutText, Plain, WellFormed;
    whole := FullText(title, description);
    t := ShrunkText(DESCRIPTION_LAYOUT, whole, "", 4096);
    DescriptionIsWellFormed();
    FullTextIsSolid(title, description);
    PlainOfDescription();
    ReaderSees(DESCRIPTION_LAYOUT, whole, "");
    ReaderSees(DESCRIPTION_LAYOUT, t, "");
    DescriptionReads(whole);
    DescriptionReads(t);
    var n := Measured(DESCRIPTION_LAYOUT, whole, "") - 4096;
    if n > 0 {
      CutTextCuts(whole, n);
    }
  }

  lemma DescriptionReads(t: string)
    requires Plain(DESCRIPTION_LAYOUT.before) == "📋 תיאור מלא:\n\n"
    requires Plain(DESCRIPTION_LAYOUT.between) == Plain(DESCRIPTION_LAYOUT.after) == ""
    ensures Reader(DESCRIPTION_LAYOUT, t, "") == "📋 תיאור מלא:\n\n" + t
  {
    hide Plain;
    assert "" + "" + "" == "" && "📋 תיאור מלא:\n\n" + t + "" == "📋 תיאור מלא:\n\n" + t;
  }

  lemma PlainOfDescription()
    ensures Plain(DESCRIPTION_LAYOUT.before) == "📋 תיאור מלא:\n\n"
    ensures Plain(DESCRIPTION_LAYOUT.between) == Plain(DESCRIPTION_LAYOUT.after) == ""
  {
    hide Plain;
    var b := DESCRIPTION_LAYOUT.before;
    assert b == [b[0], b[1]] + ([b[2], b[3]] + [b[4], b[5]]);
    PlainConcat([b[0], b[1]], [b[2], b[3]] + [b[4], b[5]]);
    PlainConcat([b[2], b[3]], [b[4], b[5]]);
    PlainPair(b[0], b[1]);
    PlainPair(b[2], b[3]);
    PlainPair(b[4], b[5]);
    PlainOfTags();
    NothingPlain();
  }

  /** What stands above the parts of a split file. */
  lemma WhatALabelSays(index: nat, total: nat, filename: string)
    ensures ParseHtml(PartLabel(index, total)) == "📎 חלק " + Numeral(index, 10, 1) + "/" + Numeral(total, 10, 1)
    ensures ParseHtml(DocPartLabel(index, total, filename))
         == "📎 חלק " + Numeral(index, 10, 1) + "/" + Numeral(total, 10, 1) + ": " + filename
  {
    hide ParseHtml, Escape, Numeral;
    ParseWholeEscape(PartText(index, total));
    ParseWholeEscape(DocPartText(index, total, filename));
  }

  // ------------------------------------------------------------ escaping

  lemma {:induction false} EscapeConcat(a: string, b: string)
    ensures Escape(a + b) == Escape(a) + Escape(b)
  {
    if a == "" {
      assert a + b == b;
    } else {
      assert (a + b)[1..] == a[1..] + b;
      EscapeConcat(a[1..], b);
    }
  }

  /** Escaping replaces five characters, each by its reference, and no other. */
  lemma WhatEscapingDoes(a: string, c: char, b: string)
    ensures Escape(a + [c] + b) == Escape(a) + (match c
                                                case '&' => "&amp;"
                                                case '<' => "&lt;"
                                                case '>' => "&gt;"
                                                case '"' => "&quot;"
                                                case '\'' => "&#x27;"
                                                case _ => [c]) + Escape(b)
    ensures Escape("") == ""
  {
    EscapeConcat(a + [c], b);
    EscapeConcat(a, [c]);
    OneEscaped(c);
  }

  lemma OneEscaped(c: char)
    ensures Escape([c]) == EscapeChar(c)
  {
    assert [c][1..] == "";
    assert EscapeChar(c) + "" == EscapeChar(c);
  }

  /** So no title, name or link can open or close a tag or end an attribute. */
  lemma {:induction false} NothingToMarkUp(t: string)
    ensures forall c :: c in Escape(t) ==> c !in {'<', '>', '"', '\''}
  {
    if t != "" {
      NothingToMarkUp(t[1..]);
    }
  }
}

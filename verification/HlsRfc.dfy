/** Where the parser reads a playlist differently from RFC 8216: discontinuities (section
    4.3.2.3), byte ranges without an offset (4.3.2.2) and map tags (4.3.2.5). For each, exactly
    when both readings agree, and a playlist on which they do not. */
module HlsRfc {
  import opened Common
  import opened PyText
  import opened HlsPlaylist
  import opened HlsReading
  import opened HlsRender
  import opened HlsRoundTrip

  // ------------------------------------------------------------ discontinuities

  lemma DiscontinuityTag(line: string)
    ensures Classify(line).DiscontinuityLine? <==> StartsWith(line, DISCONTINUITY)
  {
    if StartsWith(line, DISCONTINUITY) {
      SameStart(line, DISCONTINUITY, 4);
      SameStart(line, DISCONTINUITY, 7);
      NotTagged(line, STREAM_INF, 7);
      NotTagged(line, MEDIA, 7);
      NotTagged(line, KEY, 7);
      NotTagged(line, MAP, 7);
      NotTagged(line, EXTINF, 4);
      NotTagged(line, BYTERANGE, 7);
      NotTagged(line, MEDIA_SEQUENCE, 7);
      NotTagged(line, PROGRAM_DATE_TIME, 7);
    }
  }

  lemma SameStart(line: string, tag: string, k: nat)
    requires StartsWith(line, tag) && k < |tag|
    ensures k < |line| && line[k] == tag[k]
  {
    assert line[..|tag|][k] == tag[k];
  }

  /** Line `j` comes after the last address line. */
  predicate Recent(lines: seq<string>, j: nat) {
    j < |lines| && forall m :: j <= m < |lines| ==> !Classify(lines[m]).UriLine?
  }

  ghost predicate RecentBreak(lines: seq<string>) {
    exists j: nat :: Recent(lines, j) && StartsWith(lines[j], DISCONTINUITY)
  }

  lemma RecentStep(lines: seq<string>, line: string, j: nat)
    requires !Classify(line).UriLine?
    ensures j < |lines| ==> (Recent(lines + [line], j) <==> Recent(lines, j)) && (lines + [line])[j] == lines[j]
    ensures Recent(lines + [line], |lines|)
  {
    hide Classify;
    var more := lines + [line];
    assert forall m :: 0 <= m < |lines| ==> more[m] == lines[m];
  }

  lemma BreakStep(lines: seq<string>, line: string)
    requires !Classify(line).UriLine?
    ensures RecentBreak(lines + [line]) <==> StartsWith(line, DISCONTINUITY) || RecentBreak(lines)
  {
    hide Classify, StartsWith;
    var more := lines + [line];
    RecentStep(lines, line, 0);
    if StartsWith(line, DISCONTINUITY) {
      assert Recent(more, |lines|);
    }
    if RecentBreak(lines) {
      var j: nat :| Recent(lines, j) && StartsWith(lines[j], DISCONTINUITY);
      RecentStep(lines, line, j);
    }
    if j: nat :| Recent(more, j) && StartsWith(more[j], DISCONTINUITY) {
      RecentStep(lines, line, j);
      assert j < |lines| || more[j] == line;
    }
  }

  lemma NoBreakAtUri(lines: seq<string>, line: string)
    requires Classify(line).UriLine?
    ensures !RecentBreak(lines + [line])
  {
    hide Classify, StartsWith;
    var more := lines + [line];
    assert more[|lines|] == line;
    forall j: nat ensures !Recent(more, j) {
    }
  }

  lemma {:induction false} BreakIs(lines: seq<string>)
    ensures BreakAbove(lines) <==> RecentBreak(lines)
  {
    hide StartsWith, Classify, RecentBreak;
    if lines == [] {
      NothingRecent();
    } else {
      var front, last := lines[..|lines| - 1], lines[|lines| - 1];
      assert lines == front + [last];
      DiscontinuityTag(last);
      BreakIs(front);
      if Classify(last).UriLine? {
        NoBreakAtUri(front, last);
      } else {
        BreakStep(front, last);
      }
    }
  }

  lemma NothingRecent()
    ensures !RecentBreak([])
  {
  }

  /** The tag itself. */
  ghost predicate RfcBreak(lines: seq<string>) { exists j: nat :: Recent(lines, j) && lines[j] == DISCONTINUITY }

  /** A longer line that begins like it, such as a discontinuity sequence. */
  ghost predicate LooksLikeBreak(lines: seq<string>) {
    exists j: nat :: Recent(lines, j) && StartsWith(lines[j], DISCONTINUITY) && lines[j] != DISCONTINUITY
  }

  lemma TagStartsItself()
    ensures StartsWith(DISCONTINUITY, DISCONTINUITY)
  {
  }

  /** A segment is marked as a discontinuity when some line since the address before begins with
      the tag. That is the RFC's reading exactly when a longer line that begins with it never
      comes without the tag itself. */
  lemma BreakEqualsRfc(text: string, i: nat)
    requires Parsed(text).Ok? && Parsed(text).value.Media? && i < |Parsed(text).value.segments|
    ensures i < |UriLines(Body(text))|
    ensures var above := Body(text)[..UriLines(Body(text))[i]];
            Parsed(text).value.segments[i].discontinuity == RfcBreak(above) <==> (LooksLikeBreak(above) ==> RfcBreak(above))
  {
    hide Parsed, Body, StartsWith, Classify, UriLines;
    SegmentsAre(text);
    var lines := Body(text);
    var above := lines[..UriLines(lines)[i]];
    assert Parsed(text).value.segments[i] == SegmentOn(lines, UriLines(lines)[i], i);
    BreakIs(above);
    TagStartsItself();
  }

  // ------------------------------------------------------------ byte ranges

  /** `@` in the stripped value: the tag gives an offset. */
  predicate HasOffset(rest: string) { '@' in Strip(rest) }

  lemma FindFinds(s: string, c: char)
    ensures Find(s, c) < |s| <==> c in s
  {
  }

  /** The code's range: without an offset it begins at 0. */
  lemma CodeRange(rest: string)
    requires ParseByterange(rest).Ok?
    ensures !HasOffset(rest) ==> ParseByterange(rest).value.offset == 0
  {
    hide Strip, ParseInt;
    FindFinds(Strip(rest), '@');
  }

  lemma PrefixParses(p: Parser, lines: seq<string>, k: nat)
    requires ParseLines(p, lines).Ok? && k <= |lines|
    ensures ParseLines(p, lines[..k]).Ok?
  {
    hide ParseLine, ParseLines;
    ParseLinesConcat(p, lines[..k], lines[k..]);
    assert lines == lines[..k] + lines[k..];
  }

  lemma RangeLineParses(p: Parser, line: string)
    requires Classify(line).ByterangeLine? && ParseLine(p, line).Ok?
    ensures RangeOf(Some(Classify(line).rest)).Some?
  {
    hide ParseByterange, Classify;
  }

  lemma {:induction false} RangesParse(lines: seq<string>)
    requires ParseLines(START, lines).Ok?
    ensures RangeAbove(lines).Some? ==> RangeOf(RangeAbove(lines)).Some?
  {
    if lines == [] {
    } else {
      hide ParseLine, ParseLines, RangeAbove, RangeOf, Classify;
      var front, last := lines[..|lines| - 1], lines[|lines| - 1];
      assert lines == front + [last];
      ReadingLast(START, front, last);
      RangesParse(front);
      OneMoreAbove(front, last);
      if Classify(last).ByterangeLine? {
        RangeLineParses(ParseLines(START, front).value, last);
      }
    }
  }

  /** The RFC's range of segment `i`: without an offset it begins where the range of the segment
      before ends, which must be one of the same resource; None if there is no valid range. */
  ghost function RfcRange(lines: seq<string>, i: nat): Option<ByteRange>
    requires i < |UriLines(lines)|
    decreases i, 1
  {
    var ks := UriLines(lines);
    var tag := RangeAbove(lines[..ks[i]]);
    if tag.None? || HasOffset(tag.value) then RangeOf(tag)
    else if Follows(lines, i) then
      var before := RfcRange(lines, i - 1).value;
      if RangeOf(tag).Some? then Some(RangeOf(tag).value.(offset := before.offset + before.length)) else None
    else None
  }

  ghost predicate Follows(lines: seq<string>, i: nat)
    requires i < |UriLines(lines)|
    decreases i, 0
  {
    i > 0 && RfcRange(lines, i - 1).Some? && lines[UriLines(lines)[i - 1]] == lines[UriLines(lines)[i]]
  }

  /** The range tag of segment `i`. */
  function TagOf(lines: seq<string>, i: nat): Option<string>
    requires i < |UriLines(lines)|
  {
    RangeAbove(lines[..UriLines(lines)[i]])
  }

  /** The tag of segment `j` gives an offset, and from there on to segment `i` all have tags
      without one, for one resource. */
  ghost predicate Chain(lines: seq<string>, j: nat, i: nat) {
    && j <= i < |UriLines(lines)|
    && TagOf(lines, j).Some? && HasOffset(TagOf(lines, j).value)
    && forall m :: j < m <= i ==> TagOf(lines, m).Some? && !HasOffset(TagOf(lines, m).value)
                                  && lines[UriLines(lines)[m]] == lines[UriLines(lines)[j]]
  }

  function LengthOf(tag: Option<string>): int { if RangeOf(tag).Some? then RangeOf(tag).value.length else 0 }

  function OffsetOf(tag: Option<string>): int { if RangeOf(tag).Some? then RangeOf(tag).value.offset else 0 }

  /** The lengths the tags of segments `j` to `i - 1` give, together. */
  function Lengths(lines: seq<string>, j: nat, i: nat): int
    requires i <= |UriLines(lines)|
    decreases i
  {
    if i <= j then 0 else Lengths(lines, j, i - 1) + LengthOf(TagOf(lines, i - 1))
  }

  /** Every range tag up to segment `i` can be read. */
  ghost predicate TagsRead(lines: seq<string>, i: nat) {
    i < |UriLines(lines)| && forall m: nat :: m <= i ==> TagOf(lines, m).Some? ==> RangeOf(TagOf(lines, m)).Some?
  }

  lemma {:induction false} ChainRange(lines: seq<string>, j: nat, i: nat)
    requires Chain(lines, j, i) && TagsRead(lines, i)
    ensures RfcRange(lines, i) == Some(ByteRange(LengthOf(TagOf(lines, i)), OffsetOf(TagOf(lines, j)) + Lengths(lines, j, i)))
    decreases i
  {
    hide Classify, UriLines, ParseByterange, HasOffset, RangeAbove;
    if j < i {
      ChainRange(lines, j, i - 1);
    }
  }

  lemma {:induction false} ChainTo(lines: seq<string>, i: nat) returns (j: nat)
    requires i < |UriLines(lines)| && RfcRange(lines, i).Some?
    ensures Chain(lines, j, i)
    decreases i
  {
    hide Classify, UriLines, ParseByterange, HasOffset, RangeAbove;
    if HasOffset(TagOf(lines, i).value) {
      j := i;
    } else {
      j := ChainTo(lines, i - 1);
    }
  }

  /** What decides it: there is no tag, or it gives an offset, or the last tag above that gives one
      is of the same resource, those in between as well, and its offset and their lengths sum up
      to 0 (for sizes that make sense: all of them are empty). */
  ghost predicate StartsAtZero(lines: seq<string>, i: nat)
    requires i < |UriLines(lines)|
  {
    || TagOf(lines, i).None? || HasOffset(TagOf(lines, i).value)
    || exists j: nat :: Chain(lines, j, i) && OffsetOf(TagOf(lines, j)) + Lengths(lines, j, i) == 0
  }

  lemma RangeByTags(lines: seq<string>, i: nat)
    requires TagsRead(lines, i)
    requires TagOf(lines, i).Some? && !HasOffset(TagOf(lines, i).value) ==> OffsetOf(TagOf(lines, i)) == 0
    ensures RangeOf(TagOf(lines, i)) == RfcRange(lines, i) <==> StartsAtZero(lines, i)
  {
    hide Classify, UriLines, ParseByterange, HasOffset, RangeAbove, Lengths;
    if TagOf(lines, i).Some? && !HasOffset(TagOf(lines, i).value) {
      if RfcRange(lines, i).Some? {
        var j := ChainTo(lines, i);
        ChainRange(lines, j, i);
      }
      if j: nat :| Chain(lines, j, i) && OffsetOf(TagOf(lines, j)) + Lengths(lines, j, i) == 0 {
        ChainRange(lines, j, i);
      }
    }
  }

  /** A segment's byte range is the RFC's exactly in those cases: a tag without an offset is
      read from the start of the resource, not from where the range before ended. */
  lemma RangeEqualsRfc(text: string, i: nat)
    requires Parsed(text).Ok? && Parsed(text).value.Media? && i < |Parsed(text).value.segments|
    ensures i < |UriLines(Body(text))|
    ensures Parsed(text).value.segments[i].byterange == RfcRange(Body(text), i) <==> StartsAtZero(Body(text), i)
  {
    hide Body, Classify, UriLines, ParseLines, ParseByterange, HasOffset, RangeAbove, RfcRange, StartsAtZero;
    SegmentsAre(text);
    var lines := Body(text);
    assert Parsed(text).value.segments[i] == SegmentOn(lines, UriLines(lines)[i], i);
    BodyParses(text);
    forall m: nat | m <= i ensures TagOf(lines, m).Some? ==> RangeOf(TagOf(lines, m)).Some? {
      PrefixParses(START, lines, UriLines(lines)[m]);
      RangesParse(lines[..UriLines(lines)[m]]);
    }
    if TagOf(lines, i).Some? {
      CodeRange(TagOf(lines, i).value);
    }
    RangeByTags(lines, i);
  }

  lemma BodyParses(text: string)
    requires Parsed(text).Ok?
    ensures ParseLines(START, Body(text)).Ok?
  {
    hide ParseLines, NonblankLines, Finish;
  }

  // ------------------------------------------------------------ map tags

  /** What a map tag names, and the range it gives. */
  datatype Init = Init(uri: Option<string>, range: Option<ByteRange>)

  function InitOf(rest: string): Init { Init(Get(ParseAttrs(rest), "URI"), MapRange(rest)) }

  /** The RFC's map below `lines`: that of the last map tag above. */
  function RfcInit(lines: seq<string>): Option<Init> {
    if lines == [] then None
    else
      match Classify(lines[|lines| - 1])
      case MapLine(rest) => Some(InitOf(rest))
      case _ => RfcInit(lines[..|lines| - 1])
  }

  /** The code's map for every segment. */
  function CodeInit(lines: seq<string>): Option<Init> {
    if LastMap(lines).None? && RfcInit(lines).None? then None else Some(Init(LastMap(lines), LastMapRange(lines)))
  }

  predicate NoMapIn(lines: seq<string>, from: nat, to: nat) {
    to <= |lines| && forall m :: from <= m < to ==> !Classify(lines[m]).MapLine?
  }

  /** The map tag on line `m` is the one in force on the address line `k`. */
  predicate Governs(lines: seq<string>, m: nat, k: nat) {
    m < k < |lines| && Classify(lines[m]).MapLine? && Classify(lines[k]).UriLine? && NoMapIn(lines, m + 1, k)
  }

  lemma {:induction false} RfcInitOf(lines: seq<string>, m: nat)
    requires m < |lines| && Classify(lines[m]).MapLine? && NoMapIn(lines, m + 1, |lines|)
    ensures RfcInit(lines) == Some(InitOf(Classify(lines[m]).rest))
  {
    hide Classify, InitOf;
    if m < |lines| - 1 {
      var front := lines[..|lines| - 1];
      assert forall j :: 0 <= j < |front| ==> front[j] == lines[j];
      RfcInitOf(front, m);
    }
  }

  /** The line of the map in force, if there is one. */
  lemma {:induction false} RfcInitLine(lines: seq<string>) returns (m: nat)
    ensures RfcInit(lines).None? ==> NoMapIn(lines, 0, |lines|)
    ensures RfcInit(lines).Some? ==> m < |lines| && Classify(lines[m]).MapLine? && NoMapIn(lines, m + 1, |lines|)
  {
    hide Classify, InitOf;
    if lines == [] {
      m := 0;
    } else if Classify(lines[|lines| - 1]).MapLine? {
      m := |lines| - 1;
    } else {
      var front := lines[..|lines| - 1];
      m := RfcInitLine(front);
      assert forall j :: 0 <= j < |front| ==> front[j] == lines[j];
    }
  }

  /** Every map tag that some segment is under names what the code takes, and if there is a map
      tag at all, every segment is under one. */
  ghost predicate OneInit(lines: seq<string>) {
    && (forall m: nat, k: nat :: Governs(lines, m, k) ==> Some(InitOf(Classify(lines[m]).rest)) == CodeInit(lines))
    && (CodeInit(lines).Some? ==> forall k: nat :: k < |lines| && Classify(lines[k]).UriLine? ==> !NoMapIn(lines, 0, k))
  }

  ghost predicate SameInits(lines: seq<string>) {
    forall k: nat :: k < |lines| && Classify(lines[k]).UriLine? ==> RfcInit(lines[..k]) == CodeInit(lines)
  }

  lemma InitAbove(lines: seq<string>, k: nat)
    requires k < |lines| && Classify(lines[k]).UriLine?
    ensures RfcInit(lines[..k]).None? <==> NoMapIn(lines, 0, k)
    ensures RfcInit(lines[..k]).Some? ==> exists m: nat :: Governs(lines, m, k)
    ensures forall m: nat :: Governs(lines, m, k) ==> RfcInit(lines[..k]) == Some(InitOf(Classify(lines[m]).rest))
  {
    hide Classify, InitOf, RfcInit;
    var above := lines[..k];
    assert forall j :: 0 <= j < k ==> above[j] == lines[j];
    var n := RfcInitLine(above);
    if RfcInit(above).Some? {
      assert Governs(lines, n, k);
    }
    forall m: nat | Governs(lines, m, k) ensures RfcInit(above) == Some(InitOf(Classify(lines[m]).rest)) {
      RfcInitOf(above, m);
    }
  }

  /** One map for the whole playlist is the RFC's reading exactly when no segment is under a map
      tag that says something else, or under none although a map tag follows. */
  lemma InitEqualsRfc(lines: seq<string>)
    ensures SameInits(lines) <==> OneInit(lines)
  {
    hide Classify, InitOf, RfcInit, CodeInit, NoMapIn;
    forall k: nat | k < |lines| && Classify(lines[k]).UriLine? {
      InitAbove(lines, k);
    }
    if SameInits(lines) {
      forall m: nat, k: nat | Governs(lines, m, k)
        ensures Some(InitOf(Classify(lines[m]).rest)) == CodeInit(lines)
      {
        assert RfcInit(lines[..k]) == CodeInit(lines);
      }
    }
    if OneInit(lines) {
      forall k: nat | k < |lines| && Classify(lines[k]).UriLine? ensures RfcInit(lines[..k]) == CodeInit(lines) {
        if RfcInit(lines[..k]).Some? {
          var m: nat :| Governs(lines, m, k);
        }
      }
    }
  }

  /** The code's map is what the parse returns. */
  lemma CodeInitIsParsed(text: string)
    requires Parsed(text).Ok? && Parsed(text).value.Media?
    ensures var m, init := Parsed(text).value, CodeInit(Body(text));
            m.mapUri == (if init.Some? then init.value.uri else None)
            && m.mapByterange == (if init.Some? then init.value.range else None)
  {
    hide Parsed, Body, LastMap, RfcInit, Located;
    SegmentsAre(text);
    NoMapNoRange(Body(text));
  }

  lemma {:induction false} NoMapNoRange(lines: seq<string>)
    ensures RfcInit(lines).None? ==> LastMapRange(lines).None? && LastMap(lines).None?
  {
    hide Classify, InitOf;
    if lines != [] {
      NoMapNoRange(lines[..|lines| - 1]);
    }
  }

  // ------------------------------------------------------------ witnesses

  const HEADER := "#EXTM3U"

  lemma HeaderIsClean()
    ensures CleanLine(HEADER)
  {
    PrintableIsClean(HEADER);
  }

  lemma ParsedAs(text: string, lines: seq<string>)
    requires NonblankLines(text) == [HEADER] + lines
    ensures Body(text) == lines
    ensures Parsed(text) == match ParseLines(START, lines)
                            case Ok(p) => Finish(p)
                            case Err(e) => Err(e)
  {
    hide NonblankLines, ParseLines, Finish;
    assert ([HEADER] + lines)[1..] == lines;
  }

  /** A playlist of printable lines reads back as these lines. */
  lemma ReadsAs(lines: seq<string>)
    requires forall k :: 0 <= k < |lines| ==> CleanLine(lines[k])
    ensures Body(JoinLines([HEADER] + lines)) == lines
    ensures Parsed(JoinLines([HEADER] + lines)) ==
            match ParseLines(START, lines)
            case Ok(p) => Finish(p)
            case Err(e) => Err(e)
  {
    hide NonblankLines, JoinLines, ParseLines, Finish, CleanLine, Parsed;
    HeaderIsClean();
    LinesOfJoined([HEADER] + lines);
    ParsedAs(JoinLines([HEADER] + lines), lines);
  }

  lemma PlainIsClean(name: string)
    requires PlainName(name)
    ensures CleanLine(name)
  {
    assert forall i :: 0 <= i < |name| ==> '!' <= name[i] <= '~';
    PrintableIsClean(name);
  }

  lemma ExtinfIsClean(d: real)
    ensures CleanLine(ExtinfText(d))
  {
    ExtinfTextPrintable(d);
    PrintableIsClean(ExtinfText(d));
  }

  /** The parser's variables after one duration and one address line, with nothing special pending. */
  function Filled(p: Parser, d: real, name: string): Parser {
    p.(segments := p.segments + [Segment(name, d, p.pendingByterange, p.activeKey, p.pendingDiscontinuity,
                                         p.mediaSequence + |p.segments|, p.pendingProgramDateTime)],
       hasSegmentTag := true, pendingExtinf := None, pendingByterange := None, pendingDiscontinuity := false,
       pendingProgramDateTime := None)
  }

  lemma ReadName(p: Parser, d: real, name: string)
    requires PlainName(name) && p.pendingStreamInf.None?
    ensures ParseLine(p.(pendingExtinf := Some(d), hasSegmentTag := true), name) == Ok(Filled(p, d, name))
  {
    hide Classify, PlainName, VariantFrom, ParseAttrs, ParseFloat, ParseInt, ParseByterange, KeyFrom;
    ClassifyName(name);
  }

  lemma ReadSegment(p: Parser, d: real, name: string)
    requires PlainName(name) && p.pendingStreamInf.None?
    ensures ParseLines(p, [ExtinfText(d), name]) == Ok(Filled(p, Rounded6(d), name))
  {
    hide ParseLine, ParseLines, PlainName, Rounded6, ExtinfText, Filled;
    var q := p.(pendingExtinf := Some(Rounded6(d)), hasSegmentTag := true);
    ReadExtinfText(p, d);
    ReadOneLine(p, ExtinfText(d));
    ReadName(p, Rounded6(d), name);
    ReadOneLine(q, name);
    ParseLinesConcat(p, [ExtinfText(d)], [name]);
    assert [ExtinfText(d)] + [name] == [ExtinfText(d), name];
  }

  /** Reading one tag line and then a segment. */
  lemma ReadTagged(p: Parser, tag: string, q: Parser, d: real, name: string)
    requires ParseLine(p, tag) == Ok(q)
    ensures ParseLines(p, [tag, ExtinfText(d), name]) == ParseLines(q, [ExtinfText(d), name])
  {
    hide ParseLine, ParseLines;
    ReadOneLine(p, tag);
    ParseLinesConcat(p, [tag], [ExtinfText(d), name]);
    assert [tag] + [ExtinfText(d), name] == [tag, ExtinfText(d), name];
  }

  const SEQUENCE_TAG := DISCONTINUITY + "-SEQUENCE:3"

  lemma Longer(tag: string, rest: string)
    requires Printable(tag) && Printable(rest)
    ensures StartsWith(tag + rest, tag) && tag + rest != tag && CleanLine(tag + rest)
  {
    assert (tag + rest)[..|tag|] == tag;
    assert |tag + rest| > |tag|;
    PrintableIsClean(tag + rest);
  }

  lemma SequenceTagReads()
    ensures Classify(SEQUENCE_TAG) == DiscontinuityLine && CleanLine(SEQUENCE_TAG) && SEQUENCE_TAG != DISCONTINUITY
  {
    hide Classify, StartsWith, CleanLine;
    Longer(DISCONTINUITY, "-SEQUENCE:3");
    DiscontinuityTag(SEQUENCE_TAG);
  }

  /** A discontinuity sequence alone marks the first segment. */
  lemma BreakWitness() returns (text: string)
    ensures text == JoinLines([HEADER, SEQUENCE_TAG, ExtinfText(4.0), "a.ts"])
    ensures Parsed(text).Ok? && Parsed(text).value.Media? && |Parsed(text).value.segments| == 1
    ensures |Body(text)| == 3 && UriLines(Body(text)) == [2]
    ensures Parsed(text).value.segments[0].discontinuity && !RfcBreak(Body(text)[..2])
  {
    hide Parsed, JoinLines, CleanLine, ExtinfText, ParseLines, NonblankLines, Classify;
    var lines := [SEQUENCE_TAG, ExtinfText(4.0), "a.ts"];
    SequenceTagReads();
    ExtinfIsClean(4.0);
    PlainIsClean("a.ts");
    ReadsAs(lines);
    var q := START.(pendingDiscontinuity := true);
    ReadTagged(START, SEQUENCE_TAG, q, 4.0, "a.ts");
    ReadSegment(q, 4.0, "a.ts");
    text := JoinLines([HEADER] + lines);
    assert [HEADER] + lines == [HEADER, SEQUENCE_TAG, ExtinfText(4.0), "a.ts"];
    ExtinfIsNoBreak();
    FirstAddress(SEQUENCE_TAG);
    assert lines[..2] == [SEQUENCE_TAG, ExtinfText(4.0)];
  }

  lemma ExtinfIsNoBreak()
    ensures ExtinfText(4.0) != DISCONTINUITY
  {
    assert ExtinfText(4.0)[4] == 'I';
  }

  lemma ReadTwo(p: Parser, a: string, q: Parser, d: real, name: string, r: Parser, b: string, s: Parser)
    requires ParseLine(p, a) == Ok(q) && ParseLines(q, [ExtinfText(d), name]) == Ok(r) && ParseLine(r, b) == Ok(s)
    ensures ParseLines(p, [a, ExtinfText(d), name, b, ExtinfText(d), name]) == ParseLines(s, [ExtinfText(d), name])
  {
    hide ParseLine, ParseLines;
    ReadTagged(p, a, q, d, name);
    ReadTagged(r, b, s, d, name);
    ParseLinesConcat(p, [a, ExtinfText(d), name], [b, ExtinfText(d), name]);
    assert [a, ExtinfText(d), name] + [b, ExtinfText(d), name] == [a, ExtinfText(d), name, b, ExtinfText(d), name];
  }

  lemma ClassifyRange(rest: string)
    ensures Classify("#EXT-X-BYTERANGE:" + rest) == ByterangeLine(rest)
  {
    var line := "#EXT-X-BYTERANGE:" + rest;
    NotTagged(line, STREAM_INF, 7);
    NotTagged(line, MEDIA, 7);
    NotTagged(line, KEY, 7);
    NotTagged(line, MAP, 7);
    NotTagged(line, EXTINF, 4);
    assert StartsWith(line, BYTERANGE);
    assert line[|BYTERANGE|..] == rest;
  }

  lemma OneDigit(c: char)
    requires '0' <= c <= '9'
    ensures ParseInt([c]) == Some(DigitValue(c)) && Strip([c]) == [c]
  {
    hide Strip;
    var s := [c];
    StripClean(s);
    assert s[..0] == "" && s[0] == c;
    assert Value(s, 10) == Times(10, Value(s[..0], 10)) + DigitValue(c);
    assert AllDigits(s, 10);
  }

  lemma RangeTexts(c: char, o: char)
    requires '0' <= c <= '9' && '0' <= o <= '9'
    ensures ParseByterange([c] + ['@'] + [o]) == Ok(ByteRange(DigitValue(c), DigitValue(o))) && HasOffset([c] + ['@'] + [o])
    ensures ParseByterange([c]) == Ok(ByteRange(DigitValue(c), 0)) && !HasOffset([c])
  {
    hide ParseInt, Strip, DigitValue, Find;
    var s := [c] + ['@'] + [o];
    OneDigit(c);
    OneDigit(o);
    StripClean(s);
    FindAfter([c], '@', [o]);
    assert s[1] == '@' && s[..1] == [c] && s[2..] == [o];
    FindNone([c], '@');
  }

  const FIRST_RANGE := ['4'] + ['@'] + ['0']
  const NEXT_RANGE := ['4']
  const RANGE_TAG := "#EXT-X-BYTERANGE:" + FIRST_RANGE
  const NEXT_RANGE_TAG := "#EXT-X-BYTERANGE:" + NEXT_RANGE

  lemma RangesRead()
    ensures RangeOf(Some(FIRST_RANGE)) == RangeOf(Some(NEXT_RANGE)) == Some(ByteRange(4, 0))
    ensures ParseByterange(FIRST_RANGE).Ok? && ParseByterange(NEXT_RANGE).Ok?
    ensures HasOffset(FIRST_RANGE) && !HasOffset(NEXT_RANGE)
    ensures Printable(FIRST_RANGE) && Printable(NEXT_RANGE)
  {
    hide ParseByterange, HasOffset;
    RangeTexts('4', '0');
  }

  lemma RangeTagReads(p: Parser, rest: string)
    requires ParseByterange(rest).Ok? && Printable(rest)
    ensures var tag := "#EXT-X-BYTERANGE:" + rest;
            && ParseLine(p, tag) == Ok(p.(pendingByterange := RangeOf(Some(rest))))
            && CleanLine(tag) && Classify(tag) == ByterangeLine(rest)
  {
    hide Classify, ParseByterange, ParseFloat, ParseInt, ParseAttrs, KeyFrom, CleanLine;
    ClassifyRange(rest);
    Longer("#EXT-X-BYTERANGE:", rest);
  }

  lemma RangeTagsRead(p: Parser)
    ensures ParseLine(p, RANGE_TAG) == Ok(p.(pendingByterange := Some(ByteRange(4, 0)))) && CleanLine(RANGE_TAG)
    ensures ParseLine(p, NEXT_RANGE_TAG) == Ok(p.(pendingByterange := Some(ByteRange(4, 0)))) && CleanLine(NEXT_RANGE_TAG)
    ensures Classify(RANGE_TAG) == ByterangeLine(FIRST_RANGE) && Classify(NEXT_RANGE_TAG) == ByterangeLine(NEXT_RANGE)
  {
    hide Classify, ParseByterange, ParseLine, CleanLine, RangeOf, Printable, HasOffset;
    RangesRead();
    RangeTagReads(p, FIRST_RANGE);
    RangeTagReads(p, NEXT_RANGE);
  }

  const RANGE_LINES := [RANGE_TAG, ExtinfText(4.0), "a.ts", NEXT_RANGE_TAG, ExtinfText(4.0), "a.ts"]

  /** Two ranges of one file, the second without an offset: the code reads bytes 0 to 3 twice. */
  lemma RangeWitness() returns (text: string)
    ensures text == JoinLines([HEADER] + RANGE_LINES)
    ensures Parsed(text).Ok? && Parsed(text).value.Media? && |Parsed(text).value.segments| == 2
    ensures Parsed(text).value.segments[1].uri == Parsed(text).value.segments[0].uri
    ensures Parsed(text).value.segments[0].byterange == Some(ByteRange(4, 0)) == Parsed(text).value.segments[1].byterange
    ensures UriLines(Body(text)) == [2, 5] && RfcRange(Body(text), 1) == Some(ByteRange(4, 4))
  {
    hide Parsed, JoinLines, CleanLine, ExtinfText, ParseLines, NonblankLines, Classify, ParseLine, RfcRange;
    RangeTagsRead(START);
    ExtinfIsClean(4.0);
    PlainIsClean("a.ts");
    ReadsAs(RANGE_LINES);
    var q := START.(pendingByterange := Some(ByteRange(4, 0)));
    ReadSegment(q, 4.0, "a.ts");
    var r := ParseLines(q, [ExtinfText(4.0), "a.ts"]).value;
    RangeTagsRead(r);
    var s := r.(pendingByterange := Some(ByteRange(4, 0)));
    ReadTwo(START, RANGE_TAG, q, 4.0, "a.ts", r, NEXT_RANGE_TAG, s);
    ReadSegment(s, 4.0, "a.ts");
    text := JoinLines([HEADER] + RANGE_LINES);
    SecondRange();
  }

  lemma ExtinfClass()
    ensures Classify(ExtinfText(4.0)).ExtinfLine?
  {
    assert ExtinfText(4.0) == "#EXTINF:" + (Fixed6(4.0) + ",");
    ClassifyExtinf(Fixed6(4.0) + ",");
  }

  lemma FirstAddress(a: string)
    requires !Classify(a).UriLine?
    ensures UriLines([a, ExtinfText(4.0), "a.ts"]) == [2]
  {
    hide Classify, ExtinfText, UriLines;
    ExtinfClass();
    ClassifyName("a.ts");
    NextAddress([], a);
    NextAddress([a], ExtinfText(4.0));
    NextAddress([a, ExtinfText(4.0)], "a.ts");
    assert [] + [a] == [a] && [a] + [ExtinfText(4.0)] == [a, ExtinfText(4.0)];
    assert [a, ExtinfText(4.0)] + ["a.ts"] == [a, ExtinfText(4.0), "a.ts"];
    NoAddress();
  }

  lemma NoAddress()
    ensures UriLines([]) == []
  {
  }

  lemma NextAddress(lines: seq<string>, line: string)
    ensures UriLines(lines + [line]) == UriLines(lines) + (if Classify(line).UriLine? then [|lines|] else [])
  {
    hide Classify;
    Front(lines, line);
  }

  lemma TwoAddresses(a: string, b: string)
    requires !Classify(a).UriLine? && !Classify(b).UriLine?
    ensures UriLines([a, ExtinfText(4.0), "a.ts", b, ExtinfText(4.0), "a.ts"]) == [2, 5]
  {
    hide Classify, ExtinfText, UriLines;
    ExtinfClass();
    ClassifyName("a.ts");
    FirstAddress(a);
    var one := [a, ExtinfText(4.0), "a.ts"];
    NextAddress(one, b);
    NextAddress(one + [b], ExtinfText(4.0));
    NextAddress(one + [b] + [ExtinfText(4.0)], "a.ts");
    assert one + [b] + [ExtinfText(4.0)] + ["a.ts"] == [a, ExtinfText(4.0), "a.ts", b, ExtinfText(4.0), "a.ts"];
  }

  lemma SecondRange()
    ensures UriLines(RANGE_LINES) == [2, 5] && RfcRange(RANGE_LINES, 1) == Some(ByteRange(4, 4))
  {
    hide Classify, ExtinfText, UriLines, ParseByterange, HasOffset;
    RangeTagsRead(START);
    RangesRead();
    ExtinfClass();
    TwoAddresses(RANGE_TAG, NEXT_RANGE_TAG);
    assert RANGE_LINES[..2] == [RANGE_TAG] + [ExtinfText(4.0)];
    assert RANGE_LINES[..5] == RANGE_LINES[..4] + [ExtinfText(4.0)] && RANGE_LINES[..4] == RANGE_LINES[..3] + [NEXT_RANGE_TAG];
    OneMoreAbove([RANGE_TAG], ExtinfText(4.0));
    OneMoreAbove([], RANGE_TAG);
    assert [] + [RANGE_TAG] == [RANGE_TAG];
    OneMoreAbove(RANGE_LINES[..4], ExtinfText(4.0));
    OneMoreAbove(RANGE_LINES[..3], NEXT_RANGE_TAG);
    assert RfcRange(RANGE_LINES, 0) == Some(ByteRange(4, 0));
  }

  const INIT_LINES := [MapText("a"), ExtinfText(4.0), "a.ts", MapText("b"), ExtinfText(4.0), "a.ts"]

  /** Two map tags: the code gives the second one to both segments. */
  lemma InitWitness() returns (text: string)
    ensures text == JoinLines([HEADER] + INIT_LINES)
    ensures Parsed(text).Ok? && Parsed(text).value.Media? && Parsed(text).value.mapUri == Some("b")
    ensures |Body(text)| == 6 && UriLines(Body(text)) == [2, 5]
    ensures RfcInit(Body(text)[..2]).Some? && RfcInit(Body(text)[..2]).value.uri == Some("a")
  {
    hide Parsed, JoinLines, CleanLine, ExtinfText, ParseLines, NonblankLines, Classify, ParseLine, MapText, RfcInit;
    MapIsClean("a");
    MapIsClean("b");
    ExtinfIsClean(4.0);
    PlainIsClean("a.ts");
    ReadsAs(INIT_LINES);
    ReadMap(START, "a");
    var q := START.(mapUri := Some("a"));
    ReadSegment(q, 4.0, "a.ts");
    var r := ParseLines(q, [ExtinfText(4.0), "a.ts"]).value;
    ReadMap(r, "b");
    var s := r.(mapUri := Some("b"));
    ReadTwo(START, MapText("a"), q, 4.0, "a.ts", r, MapText("b"), s);
    ReadSegment(s, 4.0, "a.ts");
    text := JoinLines([HEADER] + INIT_LINES);
    MapClass("a");
    MapClass("b");
    TwoAddresses(MapText("a"), MapText("b"));
    FirstInit();
  }

  lemma MapIsClean(name: string)
    requires PlainName(name)
    ensures CleanLine(MapText(name))
  {
    var line := MapText(name);
    assert forall i :: 0 <= i < |name| ==> line[16 + i] == name[i];
    PrintableIsClean(line);
  }

  lemma MapClass(name: string)
    requires PlainName(name)
    ensures Classify(MapText(name)).MapLine? && InitOf(Classify(MapText(name)).rest).uri == Some(name)
  {
    hide Classify, ParseAttrs, MapRange;
    var a := Attr("URI", name, true);
    PlainHasNo(name, '"');
    assert MapText(name) == "#EXT-X-MAP:" + PrintAttr(a);
    ClassifyMap(PrintAttr(a));
    OneAttr(a);
  }

  lemma FirstInit()
    ensures RfcInit(INIT_LINES[..2]).Some? && RfcInit(INIT_LINES[..2]).value.uri == Some("a")
  {
    hide Classify, ExtinfText, MapText, InitOf, RfcInit;
    ExtinfClass();
    MapClass("a");
    assert INIT_LINES[..2] == [MapText("a"), ExtinfText(4.0)];
    RfcInitOf(INIT_LINES[..2], 0);
  }
}

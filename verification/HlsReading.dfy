/** What a parsed media playlist says about its segments, as facts about the lines: segment
    i stands on the i-th address line and carries what the tags above that line say. */
module HlsReading {
  import opened Common
  import opened PyText
  import opened HlsPlaylist

  /** Strictly increasing sequence numbers. */
  ghost predicate Increasing(segments: seq<Segment>) {
    forall i, j :: 0 <= i < j < |segments| ==> segments[i].sequence < segments[j].sequence
  }

  ghost predicate Numbered(segments: seq<Segment>, first: int) {
    forall i :: 0 <= i < |segments| ==> segments[i].sequence == first + i
  }

  // ------------------------------------------------------------ looking back from a line

  /** Where the address lines are, in order. */
  function UriLines(lines: seq<string>): (ks: seq<nat>)
    ensures forall i :: 0 <= i < |ks| ==> ks[i] < |lines| && Classify(lines[ks[i]]).UriLine?
    ensures forall i, j :: 0 <= i < j < |ks| ==> ks[i] < ks[j]
    ensures forall k: nat :: k < |lines| && Classify(lines[k]).UriLine? ==> k in ks
  {
    if lines == [] then []
    else
      var front := UriLines(lines[..|lines| - 1]);
      if Classify(lines[|lines| - 1]).UriLine? then front + [|lines| - 1] else front
  }

  /** The last duration since the address line before. */
  function DurationAbove(lines: seq<string>): Option<real> {
    if lines == [] then None
    else
      match Classify(lines[|lines| - 1])
      case ExtinfLine(rest) => ParseFloat(rest[..Find(rest, ',')])
      case UriLine => None
      case _ => DurationAbove(lines[..|lines| - 1])
  }

  /** The text of the last byte-range tag since the address line before. */
  function RangeAbove(lines: seq<string>): Option<string> {
    if lines == [] then None
    else
      match Classify(lines[|lines| - 1])
      case ByterangeLine(rest) => Some(rest)
      case UriLine => None
      case _ => RangeAbove(lines[..|lines| - 1])
  }

  /** Whether a discontinuity line came since the address line before. */
  function BreakAbove(lines: seq<string>): bool {
    lines != [] &&
    match Classify(lines[|lines| - 1])
    case DiscontinuityLine => true
    case UriLine => false
    case _ => BreakAbove(lines[..|lines| - 1])
  }

  function DateAbove(lines: seq<string>): Option<string> {
    if lines == [] then None
    else
      match Classify(lines[|lines| - 1])
      case ProgramDateTimeLine(rest) => Some(rest)
      case UriLine => None
      case _ => DateAbove(lines[..|lines| - 1])
  }

  /** The key of the last key tag, however far above. */
  function KeyInForce(lines: seq<string>): Option<KeyInfo> {
    if lines == [] then None
    else
      match Classify(lines[|lines| - 1])
      case KeyLine(rest) => KeyFrom(ParseAttrs(rest))
      case _ => KeyInForce(lines[..|lines| - 1])
  }

  /** The last media sequence, however far above; 0 if there is none. */
  function SequenceInForce(lines: seq<string>): int {
    if lines == [] then 0
    else
      match Classify(lines[|lines| - 1])
      case MediaSequenceLine(rest) => (match ParseInt(rest) case Some(n) => n case None => 0)
      case _ => SequenceInForce(lines[..|lines| - 1])
  }

  /** What the last map tag names. */
  function LastMap(lines: seq<string>): Option<string> {
    if lines == [] then None
    else
      match Classify(lines[|lines| - 1])
      case MapLine(rest) => Get(ParseAttrs(rest), "URI")
      case _ => LastMap(lines[..|lines| - 1])
  }

  /** The byte range of a map tag, if it gives one. */
  function MapRange(rest: string): Option<ByteRange> {
    var range := Get(ParseAttrs(rest), "BYTERANGE");
    if Truthy(range) then RangeOf(range) else None
  }

  /** The byte range of the last map tag that gives one. */
  function LastMapRange(lines: seq<string>): Option<ByteRange> {
    if lines == [] then None
    else
      match Classify(lines[|lines| - 1])
      case MapLine(rest) => if MapRange(rest).Some? then MapRange(rest) else LastMapRange(lines[..|lines| - 1])
      case _ => LastMapRange(lines[..|lines| - 1])
  }

  function RangeOf(rest: Option<string>): Option<ByteRange> {
    if rest.None? then None else match ParseByterange(rest.value) case Ok(range) => Some(range) case Err(_) => None
  }

  function Or(d: Option<real>): real { if d.Some? then d.value else 0.0 }

  /** The segment that stands on line `k` as number `i`. */
  function SegmentOn(lines: seq<string>, k: nat, i: nat): Segment
    requires k < |lines|
  {
    var above := lines[..k];
    Segment(lines[k], Or(DurationAbove(above)), RangeOf(RangeAbove(above)), KeyInForce(above), BreakAbove(above),
            SequenceInForce(above) + i, DateAbove(above))
  }

  /** The segments are those of the address lines, one each, in order. */
  ghost predicate Located(segments: seq<Segment>, lines: seq<string>) {
    var ks := UriLines(lines);
    |segments| == |ks| && forall i :: 0 <= i < |ks| ==> segments[i] == SegmentOn(lines, ks[i], i)
  }

  // ------------------------------------------------------------ the parser agrees

  /** The parser's variables after `lines`, as far as media playlists use them. */
  ghost predicate Mirrors(p: Parser, lines: seq<string>) {
    && p.pendingExtinf == DurationAbove(lines) && p.pendingByterange == RangeOf(RangeAbove(lines))
    && p.pendingDiscontinuity == BreakAbove(lines) && p.pendingProgramDateTime == DateAbove(lines)
    && p.activeKey == KeyInForce(lines) && p.mediaSequence == SequenceInForce(lines)
    && p.mapUri == LastMap(lines) && p.mapByterange == LastMapRange(lines)
    && p.pendingStreamInf.None? && !p.hasStreamInf
  }

  lemma Front(lines: seq<string>, line: string)
    ensures (lines + [line])[..|lines + [line]| - 1] == lines && (lines + [line])[|lines + [line]| - 1] == line
  {
  }

  lemma OneMoreAbove(lines: seq<string>, line: string)
    ensures var c := Classify(line);
            && DurationAbove(lines + [line]) == (if c.ExtinfLine? then ParseFloat(c.rest[..Find(c.rest, ',')])
                                                 else if c.UriLine? then None else DurationAbove(lines))
            && RangeAbove(lines + [line]) == (if c.ByterangeLine? then Some(c.rest) else if c.UriLine? then None else RangeAbove(lines))
            && BreakAbove(lines + [line]) == (c.DiscontinuityLine? || (!c.UriLine? && BreakAbove(lines)))
            && DateAbove(lines + [line]) == (if c.ProgramDateTimeLine? then Some(c.rest) else if c.UriLine? then None else DateAbove(lines))
  {
    hide Classify, ParseFloat, Find;
    Front(lines, line);
  }

  lemma OneMoreInForce(lines: seq<string>, line: string)
    ensures var c := Classify(line);
            && KeyInForce(lines + [line]) == (if c.KeyLine? then KeyFrom(ParseAttrs(c.rest)) else KeyInForce(lines))
            && SequenceInForce(lines + [line]) == (if !c.MediaSequenceLine? then SequenceInForce(lines)
                                                   else if ParseInt(c.rest).Some? then ParseInt(c.rest).value else 0)
            && LastMap(lines + [line]) == (if c.MapLine? then Get(ParseAttrs(c.rest), "URI") else LastMap(lines))
            && LastMapRange(lines + [line]) == (if c.MapLine? && MapRange(c.rest).Some? then MapRange(c.rest) else LastMapRange(lines))
  {
    hide Classify, ParseInt, KeyFrom, ParseAttrs, MapRange, Get;
    Front(lines, line);
  }

  lemma MapEffect(p: Parser, rest: string)
    requires OnMap(p, ParseAttrs(rest)).Ok?
    ensures var q := OnMap(p, ParseAttrs(rest)).value;
            q == p.(mapUri := Get(ParseAttrs(rest), "URI"),
                    mapByterange := if MapRange(rest).Some? then MapRange(rest) else p.mapByterange)
  {
    hide ParseAttrs, ParseByterange;
  }

  lemma MapMirrors(p: Parser, lines: seq<string>, line: string)
    requires Mirrors(p, lines) && Classify(line).MapLine? && ParseLine(p, line).Ok?
    ensures Mirrors(ParseLine(p, line).value, lines + [line]) && ParseLine(p, line).value.segments == p.segments
  {
    hide ParseAttrs, ParseFloat, ParseInt, ParseByterange, KeyFrom, Find, Classify, OnUri, OnMap, RangeOf, Get, MapRange;
    hide DurationAbove, RangeAbove, BreakAbove, DateAbove, KeyInForce, SequenceInForce, LastMap, LastMapRange;
    MapEffect(p, Classify(line).rest);
    OneMoreAbove(lines, line);
    OneMoreInForce(lines, line);
  }

  lemma UriMirrors(p: Parser, lines: seq<string>, line: string)
    requires Mirrors(p, lines) && Classify(line).UriLine? && ParseLine(p, line).Ok?
    ensures var q := ParseLine(p, line).value;
            && Mirrors(q, lines + [line])
            && q.segments == p.segments + [Segment(line, Or(DurationAbove(lines)), RangeOf(RangeAbove(lines)), KeyInForce(lines),
                                                   BreakAbove(lines), SequenceInForce(lines) + |p.segments|, DateAbove(lines))]
  {
    hide ParseAttrs, ParseFloat, ParseInt, ParseByterange, KeyFrom, Find, Classify, OnMap, VariantFrom, MapRange;
    hide DurationAbove, RangeAbove, BreakAbove, DateAbove, KeyInForce, SequenceInForce, LastMap, LastMapRange;
    OneMoreAbove(lines, line);
    OneMoreInForce(lines, line);
  }

  /** What any other line does to the parser's variables. */
  function TagEffect(p: Parser, c: Line): Parser {
    match c
    case KeyLine(rest) => p.(activeKey := KeyFrom(ParseAttrs(rest)))
    case ExtinfLine(rest) => p.(pendingExtinf := ParseFloat(rest[..Find(rest, ',')]), hasSegmentTag := true)
    case ByterangeLine(rest) => p.(pendingByterange := RangeOf(Some(rest)))
    case MediaSequenceLine(rest) => p.(mediaSequence := match ParseInt(rest) case Some(n) => n case None => 0)
    case ProgramDateTimeLine(rest) => p.(pendingProgramDateTime := Some(rest), hasProgramDateTime := true)
    case DiscontinuityLine => p.(pendingDiscontinuity := true)
    case EndlistLine => p.(hasEndlist := true)
    case _ => p
  }

  lemma TagIs(p: Parser, line: string)
    requires !Classify(line).UriLine? && !Classify(line).MapLine? && ParseLine(p, line).Ok?
    ensures var c, q := Classify(line), ParseLine(p, line).value;
            if c.StreamInfLine? then q.hasStreamInf
            else if c.MediaLine? then q == p.(mediaGroups := q.mediaGroups)
            else q == TagEffect(p, c)
  {
    hide ParseAttrs, ParseFloat, ParseInt, KeyFrom, Find, Classify, OnMap, OnUri, ParseByterange;
    match Classify(line)
    case ExtinfLine(rest) =>
    case ByterangeLine(rest) =>
    case MediaSequenceLine(rest) =>
    case _ =>
  }

  lemma TagMirrors(p: Parser, lines: seq<string>, line: string)
    requires Mirrors(p, lines) && !Classify(line).UriLine? && !Classify(line).MapLine? && ParseLine(p, line).Ok?
    requires !ParseLine(p, line).value.hasStreamInf
    ensures Mirrors(ParseLine(p, line).value, lines + [line]) && ParseLine(p, line).value.segments == p.segments
  {
    hide ParseLine, ParseAttrs, ParseFloat, ParseInt, KeyFrom, Find, Classify, ParseByterange;
    hide DurationAbove, RangeAbove, BreakAbove, DateAbove, KeyInForce, SequenceInForce, LastMap, LastMapRange;
    TagIs(p, line);
    OneMoreAbove(lines, line);
    OneMoreInForce(lines, line);
  }

  lemma {:induction false} ReadingLast(p: Parser, lines: seq<string>, line: string)
    ensures ParseLines(p, lines + [line]) ==
            match ParseLines(p, lines)
            case Ok(q) => ParseLine(q, line)
            case Err(e) => Err(e)
    decreases |lines|
  {
    hide ParseLine;
    if lines == [] {
      assert ([] + [line])[1..] == [];
    } else {
      assert (lines + [line])[1..] == lines[1..] + [line];
      match ParseLine(p, lines[0])
      case Ok(next) => ReadingLast(next, lines[1..], line);
      case Err(_) =>
    }
  }

  lemma LocatedTag(segments: seq<Segment>, lines: seq<string>, line: string)
    requires Located(segments, lines) && !Classify(line).UriLine?
    ensures Located(segments, lines + [line])
  {
    hide Classify, SegmentOn;
    Front(lines, line);
    var ks := UriLines(lines);
    assert UriLines(lines + [line]) == ks;
    forall i | 0 <= i < |ks| ensures segments[i] == SegmentOn(lines + [line], ks[i], i) {
      SegmentStays(lines, line, ks[i], i);
    }
  }

  lemma SegmentStays(lines: seq<string>, line: string, k: nat, i: nat)
    requires k < |lines|
    ensures SegmentOn(lines + [line], k, i) == SegmentOn(lines, k, i)
  {
    assert (lines + [line])[..k] == lines[..k];
  }

  lemma LocatedUri(segments: seq<Segment>, lines: seq<string>, line: string, s: Segment)
    requires Located(segments, lines) && Classify(line).UriLine?
    requires s == SegmentOn(lines + [line], |lines|, |segments|)
    ensures Located(segments + [s], lines + [line])
  {
    hide Classify, SegmentOn;
    Front(lines, line);
    var ks := UriLines(lines);
    assert UriLines(lines + [line]) == ks + [|lines|];
    forall i | 0 <= i < |ks| ensures segments[i] == SegmentOn(lines + [line], ks[i], i) {
      SegmentStays(lines, line, ks[i], i);
    }
  }

  lemma StreamInfStays(p: Parser, line: string)
    requires ParseLine(p, line).Ok?
    ensures p.hasStreamInf ==> ParseLine(p, line).value.hasStreamInf
  {
    hide ParseAttrs, ParseFloat, ParseInt, ParseByterange, KeyFrom, Find, Classify, VariantFrom;
  }

  lemma LineMirrors(p: Parser, lines: seq<string>, line: string)
    requires Mirrors(p, lines) && Located(p.segments, lines) && ParseLine(p, line).Ok?
    requires !ParseLine(p, line).value.hasStreamInf
    ensures var q := ParseLine(p, line).value; Mirrors(q, lines + [line]) && Located(q.segments, lines + [line])
  {
    hide Mirrors, Located, ParseLine, Classify;
    if Classify(line).UriLine? {
      UriMirrors(p, lines, line);
      Front(lines, line);
      HowMany(p.segments, lines);
      LocatedUri(p.segments, lines, line, SegmentOn(lines + [line], |lines|, |p.segments|));
    } else {
      if Classify(line).MapLine? {
        MapMirrors(p, lines, line);
      } else {
        TagMirrors(p, lines, line);
      }
      LocatedTag(p.segments, lines, line);
    }
  }

  lemma HowMany(segments: seq<Segment>, lines: seq<string>)
    requires Located(segments, lines)
    ensures |segments| == |UriLines(lines)|
  {
  }

  lemma {:induction false} LinesMirror(lines: seq<string>)
    requires ParseLines(START, lines).Ok? && !ParseLines(START, lines).value.hasStreamInf
    ensures var p := ParseLines(START, lines).value; Mirrors(p, lines) && Located(p.segments, lines)
    decreases |lines|
  {
    if lines == [] {
      assert ParseLines(START, []) == Ok(START);
    } else {
      hide ParseLine, ParseLines, Mirrors, Located;
      var front, line := lines[..|lines| - 1], lines[|lines| - 1];
      assert lines == front + [line];
      ReadingLast(START, front, line);
      StreamInfStays(ParseLines(START, front).value, line);
      LinesMirror(front);
      LineMirrors(ParseLines(START, front).value, front, line);
    }
  }

  /** The lines a parse goes through, after the header. */
  function Body(text: string): seq<string> {
    var lines := NonblankLines(text);
    if lines == [] then [] else lines[1..]
  }

  /** Main result: in a parsed media playlist, segment i stands on the i-th address line of the
      text. It has the duration, byte range, date and discontinuity of the tags since the address
      before, the key of the last key tag above, and the last media sequence above plus i; the
      map is that of the last map tag of all, with the last range any map tag gave. */
  lemma SegmentsAre(text: string)
    requires Parsed(text).Ok? && Parsed(text).value.Media?
    ensures var m, lines := Parsed(text).value, Body(text);
            && Located(m.segments, lines)
            && m.mediaSequence == SequenceInForce(lines)
            && m.mapUri == LastMap(lines) && m.mapByterange == LastMapRange(lines)
  {
    hide ParseLines, NonblankLines, Located;
    LinesMirror(Body(text));
  }

  // ------------------------------------------------------------ numbering

  /** Numbers run on from the playlist's media sequence exactly when no address line comes
      before a media sequence that changes it (section 4.3.3.2 of RFC 8216 allows none). */
  lemma ParsedIsNumbered(text: string)
    requires Parsed(text).Ok? && Parsed(text).value.Media?
    ensures var m, lines := Parsed(text).value, Body(text);
            Numbered(m.segments, m.mediaSequence) <==>
              forall i :: 0 <= i < |UriLines(lines)| ==>
                SequenceInForce(lines[..UriLines(lines)[i]]) == SequenceInForce(lines)
  {
    hide Parsed, Body, SequenceInForce, UriLines;
    SegmentsAre(text);
    var m, lines := Parsed(text).value, Body(text);
    forall i | 0 <= i < |UriLines(lines)|
      ensures m.segments[i].sequence == SequenceInForce(lines[..UriLines(lines)[i]]) + i
    {
      assert m.segments[i] == SegmentOn(lines, UriLines(lines)[i], i);
    }
  }

  /** The media sequence is never given after the first address line. */
  ghost predicate SequenceFirst(lines: seq<string>) {
    forall j, k :: 0 <= j < k < |lines| && Classify(lines[j]).UriLine? ==> !Classify(lines[k]).MediaSequenceLine?
  }

  lemma {:induction false} SequenceStays(lines: seq<string>, k: nat)
    requires k <= |lines| && forall j :: k <= j < |lines| ==> !Classify(lines[j]).MediaSequenceLine?
    ensures SequenceInForce(lines[..k]) == SequenceInForce(lines)
    decreases |lines|
  {
    hide Classify, ParseInt;
    if k == |lines| {
      assert lines[..k] == lines;
    } else {
      var front := lines[..|lines| - 1];
      assert front[..k] == lines[..k];
      SequenceStays(front, k);
    }
  }

  /** In such a playlist the sequence numbers are consecutive, so strictly increasing. */
  lemma NumbersIncrease(text: string)
    requires Parsed(text).Ok? && Parsed(text).value.Media? && SequenceFirst(Body(text))
    ensures Numbered(Parsed(text).value.segments, Parsed(text).value.mediaSequence)
    ensures Increasing(Parsed(text).value.segments)
  {
    hide Parsed, Body, SequenceInForce;
    ParsedIsNumbered(text);
    var lines := Body(text);
    forall i | 0 <= i < |UriLines(lines)|
      ensures SequenceInForce(lines[..UriLines(lines)[i]]) == SequenceInForce(lines)
    {
      SequenceStays(lines, UriLines(lines)[i]);
    }
  }
}

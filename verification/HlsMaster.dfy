/** Master playlists (engines/hls.py): what a parsed one says about its variants and renditions,
    in terms of the lines, and exactly which texts are playlists of which kind. */
module HlsMaster {
  import opened Common
  import opened PyText
  import opened HlsPlaylist
  import opened HlsReading

  // ------------------------------------------------------------ the tags

  /** The tags by their names. */
  lemma TagsAre(rest: string)
    ensures Classify("#EXT-X-STREAM-INF:" + rest) == StreamInfLine(rest)
    ensures Classify("#EXT-X-MEDIA:" + rest) == MediaLine(rest)
    ensures Classify("#EXT-X-KEY:" + rest) == KeyLine(rest)
    ensures Classify("#EXT-X-MAP:" + rest) == MapLine(rest)
    ensures Classify("#EXTINF:" + rest) == ExtinfLine(rest)
    ensures Classify("#EXT-X-BYTERANGE:" + rest) == ByterangeLine(rest)
    ensures Classify("#EXT-X-MEDIA-SEQUENCE:" + rest) == MediaSequenceLine(rest)
    ensures Classify("#EXT-X-PROGRAM-DATE-TIME:" + rest) == ProgramDateTimeLine(rest)
    ensures Classify("#EXT-X-DISCONTINUITY" + rest) == DiscontinuityLine
    ensures Classify("#EXT-X-ENDLIST" + rest) == EndlistLine
  {
    hide Classify;
    StreamTagRead(rest);
    MediaTagRead(rest);
    KeyTagRead(rest);
    MapTagRead(rest);
    ExtinfTagRead(rest);
    RangeTagRead(rest);
    SequenceTagRead(rest);
    DateTagRead(rest);
    BreakTagRead(rest);
    EndTagRead(rest);
  }

  lemma Begins(tag: string, rest: string)
    ensures StartsWith(tag + rest, tag) && (tag + rest)[|tag|..] == rest
  {
  }

  lemma Differs(s: string, tag: string, i: nat)
    requires i < |s| && i < |tag| && s[i] != tag[i]
    ensures !StartsWith(s, tag)
  {
  }

  lemma StreamTagRead(rest: string)
    ensures Classify(STREAM_INF + rest) == StreamInfLine(rest)
  {
    hide StartsWith;
    var s := STREAM_INF + rest;
    Begins(STREAM_INF, rest);
  }

  lemma MediaTagRead(rest: string)
    ensures Classify(MEDIA + rest) == MediaLine(rest)
  {
    hide StartsWith;
    var s := MEDIA + rest;
    Begins(MEDIA, rest);
    Differs(s, STREAM_INF, 7);
  }

  lemma KeyTagRead(rest: string)
    ensures Classify(KEY + rest) == KeyLine(rest)
  {
    hide StartsWith;
    var s := KEY + rest;
    Begins(KEY, rest);
    Differs(s, STREAM_INF, 7);
    Differs(s, MEDIA, 7);
  }

  lemma MapTagRead(rest: string)
    ensures Classify(MAP + rest) == MapLine(rest)
  {
    hide StartsWith;
    var s := MAP + rest;
    Begins(MAP, rest);
    Differs(s, STREAM_INF, 7);
    Differs(s, MEDIA, 8);
    Differs(s, KEY, 7);
  }

  lemma ExtinfTagRead(rest: string)
    ensures Classify(EXTINF + rest) == ExtinfLine(rest)
  {
    hide StartsWith;
    var s := EXTINF + rest;
    Begins(EXTINF, rest);
    Differs(s, STREAM_INF, 4);
    Differs(s, MEDIA, 4);
    Differs(s, KEY, 4);
    Differs(s, MAP, 4);
  }

  lemma RangeTagRead(rest: string)
    ensures Classify(BYTERANGE + rest) == ByterangeLine(rest)
  {
    hide StartsWith;
    var s := BYTERANGE + rest;
    Begins(BYTERANGE, rest);
    Differs(s, STREAM_INF, 7);
    Differs(s, MEDIA, 7);
    Differs(s, KEY, 7);
    Differs(s, MAP, 7);
    Differs(s, EXTINF, 4);
  }

  lemma SequenceTagRead(rest: string)
    ensures Classify(MEDIA_SEQUENCE + rest) == MediaSequenceLine(rest)
  {
    hide StartsWith;
    var s := MEDIA_SEQUENCE + rest;
    Begins(MEDIA_SEQUENCE, rest);
    Differs(s, STREAM_INF, 7);
    Differs(s, MEDIA, 12);
    Differs(s, KEY, 7);
    Differs(s, MAP, 8);
    Differs(s, EXTINF, 4);
    Differs(s, BYTERANGE, 7);
  }

  lemma DateTagRead(rest: string)
    ensures Classify(PROGRAM_DATE_TIME + rest) == ProgramDateTimeLine(rest)
  {
    hide StartsWith;
    var s := PROGRAM_DATE_TIME + rest;
    Begins(PROGRAM_DATE_TIME, rest);
    Differs(s, STREAM_INF, 7);
    Differs(s, MEDIA, 7);
    Differs(s, KEY, 7);
    Differs(s, MAP, 7);
    Differs(s, EXTINF, 4);
    Differs(s, BYTERANGE, 7);
    Differs(s, MEDIA_SEQUENCE, 7);
  }

  lemma BreakTagRead(rest: string)
    ensures Classify(DISCONTINUITY + rest) == DiscontinuityLine
  {
    hide StartsWith;
    var s := DISCONTINUITY + rest;
    Begins(DISCONTINUITY, rest);
    Differs(s, STREAM_INF, 7);
    Differs(s, MEDIA, 7);
    Differs(s, KEY, 7);
    Differs(s, MAP, 7);
    Differs(s, EXTINF, 4);
    Differs(s, BYTERANGE, 7);
    Differs(s, MEDIA_SEQUENCE, 7);
    Differs(s, PROGRAM_DATE_TIME, 7);
  }

  lemma EndTagRead(rest: string)
    ensures Classify(ENDLIST + rest) == EndlistLine
  {
    hide StartsWith;
    var s := ENDLIST + rest;
    Begins(ENDLIST, rest);
    Differs(s, STREAM_INF, 7);
    Differs(s, MEDIA, 7);
    Differs(s, KEY, 7);
    Differs(s, MAP, 7);
    Differs(s, EXTINF, 4);
    Differs(s, BYTERANGE, 7);
    Differs(s, MEDIA_SEQUENCE, 7);
    Differs(s, PROGRAM_DATE_TIME, 7);
    Differs(s, DISCONTINUITY, 7);
  }

  // ------------------------------------------------------------ looking back from an address

  /** The stream tag since the address line before. */
  function StreamAbove(lines: seq<string>): Option<string> {
    if lines == [] then None
    else
      match Classify(lines[|lines| - 1])
      case StreamInfLine(rest) => Some(rest)
      case UriLine => None
      case _ => StreamAbove(lines[..|lines| - 1])
  }

  /** The attributes of all media tags of group `g`, in order. */
  function Renditions(lines: seq<string>, g: string): seq<Attrs> {
    if lines == [] then []
    else
      var before := Renditions(lines[..|lines| - 1], g);
      match Classify(lines[|lines| - 1])
      case MediaLine(rest) => if InGroup(ParseAttrs(rest), g) then before + [ParseAttrs(rest)] else before
      case _ => before
  }

  predicate InGroup(attrs: Attrs, g: string) { "GROUP-ID" in attrs && attrs["GROUP-ID"] == g && g != "" }

  /** What the attributes of a stream tag say of a variant. A resolution counts if both sides of its
      first x, in either case, are numbers: the width before it, the height after it. */
  ghost predicate Describes(attrs: Attrs, v: Variant) {
    && v.bandwidth == (if "BANDWIDTH" in attrs && attrs["BANDWIDTH"] != "" then ParseInt(attrs["BANDWIDTH"]) else None)
    && v.audioGroup == (if "AUDIO" in attrs then Some(attrs["AUDIO"]) else None)
    && ("RESOLUTION" !in attrs || 'x' !in Lower(attrs["RESOLUTION"]) ==> v.width.None? && v.height.None?)
    && ("RESOLUTION" in attrs ==>
          forall w: string, h: string :: IsSize(attrs["RESOLUTION"], w, h) ==>
            if ParseInt(w).Some? && ParseInt(h).Some? then v.width == ParseInt(w) && v.height == ParseInt(h)
            else v.width.None? && v.height.None?)
  }

  predicate IsSize(resolution: string, w: string, h: string) { 'x' !in w && Lower(resolution) == w + "x" + h }

  lemma VariantIsDescribed(attrs: Attrs, uri: string)
    ensures Describes(attrs, VariantFrom(attrs, uri)) && VariantFrom(attrs, uri).uri == uri
  {
    hide ParseInt, Lower;
    var v := VariantFrom(attrs, uri);
    if "RESOLUTION" in attrs {
      var size := Lower(attrs["RESOLUTION"]);
      if 'x' !in size {
        FindNone(size, 'x');
      }
      if attrs["RESOLUTION"] == "" {
        EmptyLower();
      }
      forall w: string, h: string | IsSize(attrs["RESOLUTION"], w, h)
        ensures if ParseInt(w).Some? && ParseInt(h).Some? then v.width == ParseInt(w) && v.height == ParseInt(h)
                else v.width.None? && v.height.None?
      {
        assert size == w + ['x'] + h;
        FindAfter(w, 'x', h);
        assert size[..|w|] == w && size[|w| + 1..] == h;
      }
    }
  }

  lemma EmptyLower()
    ensures Lower("") == ""
  {
  }

  /** The variants are those of the address lines, one each, in order. */
  ghost predicate VariantsLocated(variants: seq<Variant>, lines: seq<string>) {
    var ks := UriLines(lines);
    |variants| == |ks| && forall i :: 0 <= i < |ks| ==> VariantOn(lines, ks[i], variants[i])
  }

  /** Variant `v` is the one that stands on line `k`. */
  ghost predicate VariantOn(lines: seq<string>, k: nat, v: Variant) {
    k < |lines| && v.uri == lines[k] && StreamAbove(lines[..k]).Some? && Describes(ParseAttrs(StreamAbove(lines[..k]).value), v)
  }

  ghost predicate GroupsAre(groups: map<string, seq<Attrs>>, lines: seq<string>) {
    forall g :: (g in groups <==> Renditions(lines, g) != []) && (g in groups ==> groups[g] == Renditions(lines, g))
  }

  // ------------------------------------------------------------ the parser agrees

  /** The parser's variables after `lines`, as far as master playlists use them. */
  ghost predicate MirrorsMaster(p: Parser, lines: seq<string>) {
    && !p.hasSegmentTag && p.pendingExtinf.None?
    && p.pendingStreamInf == (if StreamAbove(lines).Some? then Some(ParseAttrs(StreamAbove(lines).value)) else None)
  }

  lemma OneMoreStream(lines: seq<string>, line: string)
    ensures var c := Classify(line);
            StreamAbove(lines + [line]) == if c.StreamInfLine? then Some(c.rest) else if c.UriLine? then None else StreamAbove(lines)
  {
    hide Classify;
    Front(lines, line);
  }

  lemma OneMoreRendition(lines: seq<string>, line: string, g: string)
    ensures var c := Classify(line);
            Renditions(lines + [line], g) == Renditions(lines, g)
              + if c.MediaLine? && InGroup(ParseAttrs(c.rest), g) then [ParseAttrs(c.rest)] else []
  {
    hide Classify, ParseAttrs, InGroup;
    Front(lines, line);
  }

  /** What one line does to what a master playlist uses. */
  predicate Effect(p: Parser, c: Line, q: Parser, line: string) {
    && !p.hasSegmentTag && q.pendingExtinf.None?
    && (c.UriLine? ==> p.pendingStreamInf.Some?)
    && q.pendingStreamInf == (if c.StreamInfLine? then Some(ParseAttrs(c.rest)) else if c.UriLine? then None
                              else p.pendingStreamInf)
    && q.variants == p.variants + (if c.UriLine? then [VariantFrom(p.pendingStreamInf.value, line)] else [])
    && (!c.MediaLine? ==> q.mediaGroups == p.mediaGroups)
  }

  lemma LineEffect(p: Parser, line: string)
    requires ParseLine(p, line).Ok? && !ParseLine(p, line).value.hasSegmentTag && p.pendingExtinf.None?
    ensures Effect(p, Classify(line), ParseLine(p, line).value, line)
  {
    hide Classify, ParseAttrs, VariantFrom, OnMap, Get, ParseLine;
    if Classify(line).UriLine? || Classify(line).StreamInfLine? || Classify(line).MapLine? {
      UriEffect(p, line);
    } else {
      OtherEffect(p, line);
    }
  }

  lemma OtherEffect(p: Parser, line: string)
    requires ParseLine(p, line).Ok? && !ParseLine(p, line).value.hasSegmentTag && p.pendingExtinf.None?
    requires !Classify(line).UriLine? && !Classify(line).StreamInfLine? && !Classify(line).MapLine?
    ensures Effect(p, Classify(line), ParseLine(p, line).value, line)
  {
    hide Classify, ParseLine, TagEffect;
    TagIs(p, line);
    TagKeeps(p, Classify(line));
  }

  lemma TagKeeps(p: Parser, c: Line)
    ensures var q := TagEffect(p, c);
            && q.pendingStreamInf == p.pendingStreamInf && q.variants == p.variants && q.mediaGroups == p.mediaGroups
            && q.hasSegmentTag == (p.hasSegmentTag || c.ExtinfLine?) && (!c.ExtinfLine? ==> q.pendingExtinf == p.pendingExtinf)
  {
    hide ParseFloat, ParseInt, KeyFrom, RangeOf, ParseAttrs, Find;
  }

  lemma UriEffect(p: Parser, line: string)
    requires ParseLine(p, line).Ok? && !ParseLine(p, line).value.hasSegmentTag && p.pendingExtinf.None?
    requires Classify(line).UriLine? || Classify(line).StreamInfLine? || Classify(line).MapLine?
    ensures Effect(p, Classify(line), ParseLine(p, line).value, line)
  {
    hide Classify, ParseAttrs, VariantFrom, OnMap, Get;
    if Classify(line).MapLine? {
      MapIsBeside(p, ParseAttrs(Classify(line).rest));
    }
  }

  lemma MapIsBeside(p: Parser, attrs: Attrs)
    requires OnMap(p, attrs).Ok?
    ensures var q := OnMap(p, attrs).value; q == p.(mapUri := q.mapUri, mapByterange := q.mapByterange)
  {
    hide ParseByterange;
  }

  lemma MediaEffect(p: Parser, lines: seq<string>, line: string)
    requires Classify(line).MediaLine? && GroupsAre(p.mediaGroups, lines)
    ensures ParseLine(p, line).Ok? && GroupsAre(ParseLine(p, line).value.mediaGroups, lines + [line])
  {
    hide Classify, ParseAttrs, Renditions;
    var groups, attrs := ParseLine(p, line).value.mediaGroups, ParseAttrs(Classify(line).rest);
    forall g ensures (g in groups <==> Renditions(lines + [line], g) != []) && (g in groups ==> groups[g] == Renditions(lines + [line], g)) {
      OneMoreRendition(lines, line, g);
    }
  }

  lemma GroupsStay(groups: map<string, seq<Attrs>>, lines: seq<string>, line: string)
    requires GroupsAre(groups, lines) && !Classify(line).MediaLine?
    ensures GroupsAre(groups, lines + [line])
  {
    hide Classify, ParseAttrs, Renditions;
    forall g ensures Renditions(lines + [line], g) == Renditions(lines, g) {
      OneMoreRendition(lines, line, g);
    }
  }

  lemma VariantStays(lines: seq<string>, line: string, k: nat, v: Variant)
    requires VariantOn(lines, k, v)
    ensures VariantOn(lines + [line], k, v)
  {
    hide StreamAbove, Describes, ParseAttrs;
    assert (lines + [line])[..k] == lines[..k];
  }

  lemma LocatedLine(variants: seq<Variant>, lines: seq<string>, line: string, v: Variant)
    requires VariantsLocated(variants, lines) && (Classify(line).UriLine? ==> VariantOn(lines + [line], |lines|, v))
    ensures VariantsLocated(variants + (if Classify(line).UriLine? then [v] else []), lines + [line])
  {
    hide Classify, VariantOn;
    Front(lines, line);
    var ks := UriLines(lines);
    assert UriLines(lines + [line]) == if Classify(line).UriLine? then ks + [|lines|] else ks;
    forall i | 0 <= i < |ks| ensures VariantOn(lines + [line], ks[i], variants[i]) {
      VariantStays(lines, line, ks[i], variants[i]);
    }
  }

  lemma LineMirrorsMaster(p: Parser, lines: seq<string>, line: string)
    requires MirrorsMaster(p, lines) && VariantsLocated(p.variants, lines) && GroupsAre(p.mediaGroups, lines)
    requires ParseLine(p, line).Ok? && !ParseLine(p, line).value.hasSegmentTag
    ensures var q := ParseLine(p, line).value;
            MirrorsMaster(q, lines + [line]) && VariantsLocated(q.variants, lines + [line]) && GroupsAre(q.mediaGroups, lines + [line])
  {
    hide ParseLine, Classify, ParseAttrs, VariantsLocated, GroupsAre, StreamAbove, VariantFrom, Describes;
    LineEffect(p, line);
    OneMoreStream(lines, line);
    if Classify(line).MediaLine? {
      MediaEffect(p, lines, line);
    } else {
      GroupsStay(p.mediaGroups, lines, line);
    }
    var v := if Classify(line).UriLine? then VariantFrom(p.pendingStreamInf.value, line) else Variant("", None, None, None, None);
    if Classify(line).UriLine? {
      VariantIsDescribed(p.pendingStreamInf.value, line);
      assert (lines + [line])[..|lines|] == lines;
    }
    LocatedLine(p.variants, lines, line, v);
  }

  lemma SegmentTagStays(p: Parser, line: string)
    requires ParseLine(p, line).Ok?
    ensures p.hasSegmentTag ==> ParseLine(p, line).value.hasSegmentTag
  {
    hide ParseAttrs, ParseFloat, ParseInt, ParseByterange, KeyFrom, Find, Classify, VariantFrom;
  }

  lemma {:induction false} LinesMirrorMaster(lines: seq<string>)
    requires ParseLines(START, lines).Ok? && !ParseLines(START, lines).value.hasSegmentTag
    ensures var p := ParseLines(START, lines).value;
            MirrorsMaster(p, lines) && VariantsLocated(p.variants, lines) && GroupsAre(p.mediaGroups, lines)
    decreases |lines|
  {
    if lines == [] {
      assert ParseLines(START, []) == Ok(START);
    } else {
      hide ParseLine, ParseLines, MirrorsMaster, VariantsLocated, GroupsAre;
      var front, line := lines[..|lines| - 1], lines[|lines| - 1];
      assert lines == front + [line];
      ReadingLast(START, front, line);
      SegmentTagStays(ParseLines(START, front).value, line);
      LinesMirrorMaster(front);
      LineMirrorsMaster(ParseLines(START, front).value, front, line);
    }
  }

  /** Main result: in a parsed master playlist, variant i stands on the i-th address line of the
      text and is what the stream tag since the address before says, and every rendition group
      holds the attributes of its media tags in order. */
  lemma VariantsAre(text: string)
    requires Parsed(text).Ok? && Parsed(text).value.Master?
    ensures VariantsLocated(Parsed(text).value.variants, Body(text))
    ensures GroupsAre(Parsed(text).value.mediaGroups, Body(text))
  {
    hide ParseLines, NonblankLines, VariantsLocated, GroupsAre;
    LinesMirrorMaster(Body(text));
  }

  // ------------------------------------------------------------ a printed stream tag

  /** A stream tag as RFC 8216, section 4.3.4.2, writes it. */
  function StreamTag(bandwidth: nat, width: nat, height: nat, audio: string): string {
    PrintAttrs([Attr("BANDWIDTH", Numeral(bandwidth, 10, 1), false),
                Attr("RESOLUTION", Numeral(width, 10, 1) + "x" + Numeral(height, 10, 1), false),
                Attr("AUDIO", audio, true)])
  }

  lemma NumeralReads(n: nat)
    ensures ParseInt(Numeral(n, 10, 1)) == Some(n)
    ensures forall c :: c in Numeral(n, 10, 1) ==> '0' <= c <= '9'
  {
    hide Strip, Numeral, Value, AllDigits;
    var s := Numeral(n, 10, 1);
    NumeralValue(n, 10, 1);
    NoSpaces(s);
  }

  lemma NoSpaces(s: string)
    requires s != "" && forall i :: 0 <= i < |s| ==> PrintedDigit(s[i], 10)
    ensures Strip(s) == s && s[0] != '-' && s[0] != '+'
  {
    hide LStrip, RStrip;
    assert !IsSpace(s[0]) && !IsSpace(s[|s| - 1]);
    StripClean(s);
  }

  lemma NumeralsStayLow(w: string, h: string)
    requires (forall c :: c in w ==> '0' <= c <= '9') && forall c :: c in h ==> '0' <= c <= '9'
    ensures Lower(w + "x" + h) == w + "x" + h
  {
    var s := w + "x" + h;
    forall i | 0 <= i < |s| ensures LowerChar(s[i]) == s[i] {
      assert i < |w| ==> s[i] == w[i] && w[i] in w;
      assert i > |w| ==> s[i] == h[i - |w| - 1] && h[i - |w| - 1] in h;
    }
  }

  /** Reading a printed stream tag gives back its numbers, the width before the height. */
  lemma ReadStreamTag(bandwidth: nat, width: nat, height: nat, audio: string, uri: string)
    requires '"' !in audio
    ensures VariantFrom(ParseAttrs(StreamTag(bandwidth, width, height, audio)), uri)
         == Variant(uri, Some(bandwidth), Some(height), Some(width), Some(audio))
  {
    hide Numeral, ParseInt, Lower, VariantFrom;
    var b, w, h := Numeral(bandwidth, 10, 1), Numeral(width, 10, 1), Numeral(height, 10, 1);
    NumeralReads(bandwidth);
    NumeralReads(width);
    NumeralReads(height);
    var attrs := [Attr("BANDWIDTH", b, false), Attr("RESOLUTION", w + "x" + h, false), Attr("AUDIO", audio, true)];
    assert PrintableAttr(attrs[0]) && PrintableAttr(attrs[1]) && PrintableAttr(attrs[2]);
    ParseUndoesPrintAttrs(attrs);
    var read := ParseAttrs(PrintAttrs(attrs));
    ThreeAttrs(b, w + "x" + h, audio);
    VariantIsDescribed(read, uri);
    NumeralsStayLow(w, h);
    assert 'x' !in w && IsSize(w + "x" + h, w, h);
  }

  lemma ThreeAttrs(b: string, size: string, audio: string)
    ensures var m := AttrMap([Attr("BANDWIDTH", b, false), Attr("RESOLUTION", size, false), Attr("AUDIO", audio, true)]);
            && "BANDWIDTH" in m && m["BANDWIDTH"] == b && "RESOLUTION" in m && m["RESOLUTION"] == size
            && "AUDIO" in m && m["AUDIO"] == audio
  {
    var x, y, z := Attr("BANDWIDTH", b, false), Attr("RESOLUTION", size, false), Attr("AUDIO", audio, true);
    assert [x, y, z][1..] == [y, z] && [y, z][1..] == [z] && [z][1..] == [];
    assert AttrMap([z]) == map["AUDIO" := audio];
    assert "BANDWIDTH" != "RESOLUTION" && "BANDWIDTH" != "AUDIO" && "RESOLUTION" != "AUDIO" by {
      assert "BANDWIDTH"[0] == 'B' && "RESOLUTION"[0] == 'R' && "AUDIO"[0] == 'A';
    }
  }

  /** Reading a printed byte range gives back its two numbers. */
  lemma ReadByterange(length: nat, offset: nat)
    ensures ParseByterange(Numeral(length, 10, 1) + "@" + Numeral(offset, 10, 1)) == Ok(ByteRange(length, offset))
    ensures ParseByterange(Numeral(length, 10, 1)) == Ok(ByteRange(length, 0))
  {
    hide Numeral, ParseInt, Strip, Find;
    var a, b := Numeral(length, 10, 1), Numeral(offset, 10, 1);
    NumeralReads(length);
    NumeralReads(offset);
    var s := a + "@" + b;
    DigitsAreStripped(a, s, b);
    FindAfter(a, '@', b);
    FindNone(a, '@');
    assert s[..|a|] == a && s[|a| + 1..] == b;
  }

  lemma DigitsAreStripped(a: string, s: string, b: string)
    requires a != "" && b != "" && s == a + "@" + b
    requires (forall c :: c in a ==> '0' <= c <= '9') && forall c :: c in b ==> '0' <= c <= '9'
    ensures Strip(a) == a && Strip(s) == s
  {
    hide Strip;
    assert s[0] == a[0] && a[0] in a && s[|s| - 1] == b[|b| - 1] && b[|b| - 1] in b && a[|a| - 1] in a;
    StripClean(s);
    StripClean(a);
  }

  // ------------------------------------------------------------ which texts are playlists

  /** The values a line gives can be read. */
  predicate Readable(line: string) {
    match Classify(line)
    case ExtinfLine(rest) => ParseFloat(rest[..Find(rest, ',')]).Some?
    case ByterangeLine(rest) => RangeOf(Some(rest)).Some?
    case MediaSequenceLine(rest) => ParseInt(rest).Some?
    case MapLine(rest) =>
      var attrs := ParseAttrs(rest);
      && "URI" in attrs && attrs["URI"] != ""
      && ("BYTERANGE" in attrs && attrs["BYTERANGE"] != "" ==> RangeOf(Some(attrs["BYTERANGE"])).Some?)
    case _ => true
  }

  ghost predicate HasStream(lines: seq<string>) { exists k :: 0 <= k < |lines| && Classify(lines[k]).StreamInfLine? }

  ghost predicate HasDuration(lines: seq<string>) { exists k :: 0 <= k < |lines| && Classify(lines[k]).ExtinfLine? }

  /** Every address line has a stream tag or a duration since the address line before. */
  ghost predicate Announced(lines: seq<string>) {
    forall k :: 0 <= k < |lines| && Classify(lines[k]).UriLine? ==> IsAnnounced(lines, k)
  }

  predicate IsAnnounced(lines: seq<string>, k: nat)
    requires k < |lines|
  {
    StreamAbove(lines[..k]).Some? || DurationAbove(lines[..k]).Some?
  }

  ghost predicate Fine(lines: seq<string>) {
    (forall k :: 0 <= k < |lines| ==> Readable(lines[k])) && Announced(lines)
  }

  /** The parser's variables after lines of only one kind. */
  ghost predicate Tracks(p: Parser, lines: seq<string>) {
    && (p.pendingStreamInf.Some? <==> StreamAbove(lines).Some?) && (p.pendingExtinf.Some? <==> DurationAbove(lines).Some?)
    && |p.variants| + |p.segments| == |UriLines(lines)|
    && (!p.hasStreamInf ==> p.variants == [] && p.pendingStreamInf.None?)
    && (!p.hasSegmentTag ==> p.segments == [] && p.pendingExtinf.None?)
  }

  lemma StepIff(p: Parser, line: string)
    ensures ParseLine(p, line).Ok? <==>
              Readable(line) && (Classify(line).UriLine? ==> p.pendingStreamInf.Some? || p.pendingExtinf.Some?)
  {
    hide Classify, ParseAttrs, ParseFloat, ParseInt, ParseByterange, KeyFrom, Find, VariantFrom;
  }

  lemma StepFlags(p: Parser, line: string)
    requires ParseLine(p, line).Ok?
    ensures var c, q := Classify(line), ParseLine(p, line).value;
            q.hasStreamInf == (p.hasStreamInf || c.StreamInfLine?) && q.hasSegmentTag == (p.hasSegmentTag || c.ExtinfLine?)
  {
    hide Classify, ParseAttrs, ParseFloat, ParseInt, ParseByterange, KeyFrom, Find, VariantFrom, OnMap, Get;
    if Classify(line).MapLine? {
      MapIsBeside(p, ParseAttrs(Classify(line).rest));
    }
  }

  lemma StepPending(p: Parser, line: string)
    requires ParseLine(p, line).Ok? && !Classify(line).UriLine?
    ensures var c, q := Classify(line), ParseLine(p, line).value;
            && q.variants == p.variants && q.segments == p.segments
            && (q.pendingStreamInf.Some? <==> c.StreamInfLine? || p.pendingStreamInf.Some?)
            && (q.pendingExtinf.Some? <==> c.ExtinfLine? || p.pendingExtinf.Some?)
  {
    hide Classify, ParseAttrs, ParseFloat, ParseInt, ParseByterange, KeyFrom, Find, VariantFrom, OnMap, Get, OnUri;
    if Classify(line).MapLine? {
      MapIsBeside(p, ParseAttrs(Classify(line).rest));
    } else if Classify(line).StreamInfLine? || Classify(line).MediaLine? || Classify(line).ExtinfLine? {
    } else {
      PlainTag(p, line);
    }
  }

  lemma PlainTag(p: Parser, line: string)
    requires var c := Classify(line);
             ParseLine(p, line).Ok? && !(c.UriLine? || c.MapLine? || c.StreamInfLine? || c.MediaLine? || c.ExtinfLine?)
    ensures var q := ParseLine(p, line).value;
            && q.variants == p.variants && q.segments == p.segments
            && q.pendingStreamInf == p.pendingStreamInf && q.pendingExtinf == p.pendingExtinf
  {
    hide Classify, ParseLine, ParseFloat, ParseInt, KeyFrom, RangeOf, ParseAttrs, Find;
    TagIs(p, line);
  }

  lemma UriPending(p: Parser, line: string)
    requires ParseLine(p, line).Ok? && Classify(line).UriLine? && (p.pendingStreamInf.None? || p.pendingExtinf.None?)
    ensures var q := ParseLine(p, line).value;
            && q.pendingStreamInf.None? && q.pendingExtinf.None?
            && |q.variants| == |p.variants| + (if p.pendingStreamInf.Some? then 1 else 0)
            && |q.segments| == |p.segments| + (if p.pendingStreamInf.Some? then 0 else 1)
  {
    hide Classify, VariantFrom;
  }

  lemma StepTracks(p: Parser, lines: seq<string>, line: string)
    requires Tracks(p, lines) && ParseLine(p, line).Ok?
    requires !(ParseLine(p, line).value.hasStreamInf && ParseLine(p, line).value.hasSegmentTag)
    ensures Tracks(ParseLine(p, line).value, lines + [line])
  {
    hide Classify, ParseLine, StreamAbove, DurationAbove, ParseFloat, Find;
    StepFlags(p, line);
    OneMoreStream(lines, line);
    OneMoreAbove(lines, line);
    Front(lines, line);
    StepIff(p, line);
    if Classify(line).UriLine? {
      UriPending(p, line);
    } else {
      StepPending(p, line);
    }
  }

  lemma FineNext(lines: seq<string>, line: string)
    ensures Fine(lines + [line]) <==>
              && Fine(lines) && Readable(line)
              && (Classify(line).UriLine? ==> StreamAbove(lines).Some? || DurationAbove(lines).Some?)
  {
    hide Classify, StreamAbove, DurationAbove, Readable;
    var all := lines + [line];
    assert forall k :: 0 <= k <= |lines| ==> all[..k] == lines[..k];
    assert lines[..|lines|] == lines && all[|lines|] == line;
    assert forall k :: 0 <= k < |lines| ==> all[k] == lines[k] && (IsAnnounced(all, k) <==> IsAnnounced(lines, k));
    assert IsAnnounced(all, |lines|) <==> StreamAbove(lines).Some? || DurationAbove(lines).Some?;
  }

  lemma KindsNext(lines: seq<string>, line: string)
    ensures HasStream(lines + [line]) <==> HasStream(lines) || Classify(line).StreamInfLine?
    ensures HasDuration(lines + [line]) <==> HasDuration(lines) || Classify(line).ExtinfLine?
  {
    hide Classify;
    var all := lines + [line];
    assert all[|lines|] == line && forall k :: 0 <= k < |lines| ==> all[k] == lines[k];
  }

  lemma {:induction false} FlagsAre(lines: seq<string>)
    requires ParseLines(START, lines).Ok?
    ensures var p := ParseLines(START, lines).value;
            (p.hasStreamInf <==> HasStream(lines)) && (p.hasSegmentTag <==> HasDuration(lines))
    decreases |lines|
  {
    if lines == [] {
      assert ParseLines(START, []) == Ok(START);
    } else {
      hide ParseLine, ParseLines, HasStream, HasDuration;
      var front, line := lines[..|lines| - 1], lines[|lines| - 1];
      assert lines == front + [line];
      ReadingLast(START, front, line);
      FlagsAre(front);
      StepFlags(ParseLines(START, front).value, line);
      KindsNext(front, line);
    }
  }

  lemma {:induction false} ReadsIff(lines: seq<string>)
    requires !(HasStream(lines) && HasDuration(lines))
    ensures ParseLines(START, lines).Ok? <==> Fine(lines)
    ensures ParseLines(START, lines).Ok? ==> Tracks(ParseLines(START, lines).value, lines)
    decreases |lines|
  {
    if lines == [] {
      assert ParseLines(START, []) == Ok(START);
    } else {
      hide ParseLine, ParseLines, HasStream, HasDuration, Tracks, Fine, Readable;
      var front, line := lines[..|lines| - 1], lines[|lines| - 1];
      assert lines == front + [line];
      KindsNext(front, line);
      ReadsIff(front);
      ReadingLast(START, front, line);
      FineNext(front, line);
      if ParseLines(START, front).Ok? {
        StepReads(ParseLines(START, front).value, front, line);
        if ParseLines(START, lines).Ok? {
          FlagsAre(lines);
          StepTracks(ParseLines(START, front).value, front, line);
        }
      }
    }
  }

  lemma StepReads(p: Parser, lines: seq<string>, line: string)
    requires Tracks(p, lines)
    ensures ParseLine(p, line).Ok? <==>
              Readable(line) && (Classify(line).UriLine? ==> StreamAbove(lines).Some? || DurationAbove(lines).Some?)
  {
    hide ParseLine, Readable, Classify, StreamAbove, DurationAbove;
    StepIff(p, line);
  }

  /** A text is a playlist exactly when it begins with the header line, every value it gives can be
      read, it does not hold both stream tags and durations, it has an address line, and every
      address line has a stream tag or a duration since the one before. It is a master playlist
      exactly when it holds stream tags. */
  lemma ParsesIff(text: string)
    ensures Parsed(text).Ok? <==>
              && NonblankLines(text) != [] && NonblankLines(text)[0] == "#EXTM3U"
              && Fine(Body(text)) && !(HasStream(Body(text)) && HasDuration(Body(text))) && UriLines(Body(text)) != []
    ensures Parsed(text).Ok? ==> (Parsed(text).value.Master? <==> HasStream(Body(text)))
  {
    hide ParseLines, NonblankLines, HasStream, HasDuration, Fine, UriLines, Tracks;
    var lines := Body(text);
    if NonblankLines(text) != [] && NonblankLines(text)[0] == "#EXTM3U" {
      if ParseLines(START, lines).Ok? {
        FlagsAre(lines);
      }
      if !(HasStream(lines) && HasDuration(lines)) {
        ReadsIff(lines);
        if ParseLines(START, lines).Ok? {
          EndsWell(ParseLines(START, lines).value, lines);
        }
      }
    }
  }

  lemma EndsWell(p: Parser, lines: seq<string>)
    requires Tracks(p, lines) && !(p.hasStreamInf && p.hasSegmentTag)
    ensures Finish(p).Ok? <==> UriLines(lines) != []
    ensures Finish(p).Ok? ==> (Finish(p).value.Master? <==> p.hasStreamInf)
  {
    hide StreamAbove, DurationAbove;
  }
}

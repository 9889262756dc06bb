/** Reading a rewritten local playlist back: the parser undoes the printer, and the
    effective encryption of every segment survives although the local playlist drops
    the media sequence numbers. */
module HlsRoundTrip {
  import opened Common
  import opened PyText
  import opened HlsPlaylist
  import opened HlsRender

  // ------------------------------------------------------------ every printed line is recognised

  lemma NotTagged(line: string, tag: string, k: nat)
    requires k < |line| && k < |tag| && line[k] != tag[k]
    ensures !StartsWith(line, tag)
  {
    assert |tag| <= |line| ==> line[..|tag|][k] == line[k];
  }

  /** Lines of the form `#EXT-X-?...` fall through every test whose tag differs at position `k`. */
  lemma ClassifyKey(rest: string)
    ensures Classify("#EXT-X-KEY:" + rest) == KeyLine(rest)
  {
    var line := "#EXT-X-KEY:" + rest;
    NotTagged(line, STREAM_INF, 7);
    NotTagged(line, MEDIA, 7);
    assert StartsWith(line, KEY);
    assert line[|KEY|..] == rest;
  }

  lemma ClassifyMap(rest: string)
    ensures Classify("#EXT-X-MAP:" + rest) == MapLine(rest)
  {
    var line := "#EXT-X-MAP:" + rest;
    NotTagged(line, STREAM_INF, 7);
    NotTagged(line, MEDIA, 8);
    NotTagged(line, KEY, 7);
    assert StartsWith(line, MAP);
    assert line[|MAP|..] == rest;
  }

  lemma ClassifyExtinf(rest: string)
    ensures Classify("#EXTINF:" + rest) == ExtinfLine(rest)
  {
    var line := "#EXTINF:" + rest;
    NotTagged(line, STREAM_INF, 4);
    NotTagged(line, MEDIA, 4);
    NotTagged(line, KEY, 4);
    NotTagged(line, MAP, 4);
    assert StartsWith(line, EXTINF);
    assert line[|EXTINF|..] == rest;
  }

  lemma NotSegmentTag(line: string)
    requires |line| > 7 && line[4] == '-' && line[7] !in "SMKBP"
    ensures !StartsWith(line, STREAM_INF) && !StartsWith(line, MEDIA) && !StartsWith(line, KEY)
    ensures !StartsWith(line, MAP) && !StartsWith(line, EXTINF) && !StartsWith(line, BYTERANGE)
    ensures !StartsWith(line, MEDIA_SEQUENCE) && !StartsWith(line, PROGRAM_DATE_TIME)
  {
    NotTagged(line, STREAM_INF, 7);
    NotTagged(line, MEDIA, 7);
    NotTagged(line, KEY, 7);
    NotTagged(line, MAP, 7);
    NotTagged(line, EXTINF, 4);
    NotTagged(line, BYTERANGE, 7);
    NotTagged(line, MEDIA_SEQUENCE, 7);
    NotTagged(line, PROGRAM_DATE_TIME, 7);
  }

  lemma ClassifyFixedLines()
    ensures Classify("#EXT-X-DISCONTINUITY") == DiscontinuityLine
    ensures Classify("#EXT-X-ENDLIST") == EndlistLine
    ensures Classify("#EXT-X-VERSION:3") == OtherTag
  {
    NotSegmentTag("#EXT-X-DISCONTINUITY");
    NotSegmentTag("#EXT-X-ENDLIST");
    NotTagged("#EXT-X-ENDLIST", DISCONTINUITY, 7);
    NotSegmentTag("#EXT-X-VERSION:3");
    NotTagged("#EXT-X-VERSION:3", DISCONTINUITY, 7);
    NotTagged("#EXT-X-VERSION:3", ENDLIST, 7);
  }

  lemma ClassifyName(name: string)
    requires PlainName(name)
    ensures Classify(name) == UriLine
  {
    assert name[0] != '#';
    NotTagged(name, STREAM_INF, 0);
    NotTagged(name, MEDIA, 0);
    NotTagged(name, KEY, 0);
    NotTagged(name, MAP, 0);
    NotTagged(name, EXTINF, 0);
    NotTagged(name, BYTERANGE, 0);
    NotTagged(name, MEDIA_SEQUENCE, 0);
    NotTagged(name, PROGRAM_DATE_TIME, 0);
    NotTagged(name, DISCONTINUITY, 0);
    NotTagged(name, ENDLIST, 0);
    NotTagged(name, "#", 0);
  }

  // ------------------------------------------------------------ attributes of the printed tags

  /** A vector as `NormalizeIv` prints it. */
  predicate PrintedIv(iv: string) {
    |iv| == 34 && StartsWith(iv, "0x") && forall i :: 2 <= i < 34 ==> PrintedDigit(iv[i], 16)
  }

  function LocalKey(key: Option<(string, string)>): Option<KeyInfo> {
    match key
    case None => None
    case Some((file, iv)) => Some(KeyInfo("AES-128", Some(file), Some(iv), None))
  }

  lemma PlainHasNo(name: string, c: char)
    requires PlainName(name) && !PlainChar(c)
    ensures c !in name
  {
  }

  lemma UpperIsSame(s: string)
    requires forall i :: 0 <= i < |s| ==> !('a' <= s[i] <= 'z')
    ensures Upper(s) == s
  {
  }

  lemma KeyAttrs(file: string, iv: string)
    requires PlainName(file) && PrintedIv(iv)
    ensures ParseAttrs("METHOD=AES-128,URI=\"" + file + "\",IV=" + iv)
            == map["METHOD" := "AES-128", "URI" := file, "IV" := iv]
  {
    var m, u, v := Attr("METHOD", "AES-128", false), Attr("URI", file, true), Attr("IV", iv, false);
    KeyAttrsPrintable(file, iv);
    assert [m, u, v][1..] == [u, v] && [u, v][1..] == [v];
    hide ParseAttrs, AttrMap, PlainName, PrintableAttr;
    assert PrintAttr(m) == "METHOD=AES-128";
    assert PrintAttr(u) == "URI=\"" + file + "\"";
    assert PrintAttr(v) == "IV=" + iv;
    ThreePrinted(m, u, v);
    assert PrintAttrs([m, u, v]) == "METHOD=AES-128,URI=\"" + file + "\",IV=" + iv;
    ParseUndoesPrintAttrs([m, u, v]);
    ThreeAttrs(m, u, v);
  }

  lemma KeyAttrsPrintable(file: string, iv: string)
    requires PlainName(file) && PrintedIv(iv)
    ensures PrintableAttr(Attr("METHOD", "AES-128", false))
    ensures PrintableAttr(Attr("URI", file, true)) && PrintableAttr(Attr("IV", iv, false))
  {
    PlainHasNo(file, '"');
    assert iv[0] == '0' && iv[1] == 'x' by { assert iv[..2] == "0x"; }
    assert forall i :: 0 <= i < 34 ==> iv[i] != ',';
  }

  lemma ThreePrinted(m: Attr, u: Attr, v: Attr)
    ensures PrintAttrs([m, u, v]) == PrintAttr(m) + "," + (PrintAttr(u) + "," + PrintAttr(v))
  {
    hide PrintAttr;
    assert [m, u, v][1..] == [u, v] && [u, v][1..] == [v];
    assert PrintAttrs([v]) == PrintAttr(v);
    assert PrintAttrs([u, v]) == PrintAttr(u) + "," + PrintAttrs([v]);
  }

  lemma ThreeAttrs(m: Attr, u: Attr, v: Attr)
    requires m.name != u.name && m.name != v.name && u.name != v.name
    ensures AttrMap([m, u, v]) == map[m.name := m.value, u.name := u.value, v.name := v.value]
  {
    assert [m, u, v][1..] == [u, v] && [u, v][1..] == [v] && [v][1..] == [];
    assert AttrMap([v]) == map[v.name := v.value];
    assert AttrMap([u, v]) == map[u.name := u.value] + AttrMap([v]);
  }

  lemma OneAttr(a: Attr)
    requires PrintableAttr(a)
    ensures ParseAttrs(PrintAttr(a)) == map[a.name := a.value]
  {
    ParseUndoesPrintAttrs([a]);
    assert [a][1..] == [];
  }

  // ------------------------------------------------------------ one printed entry

  /** Between two entries nothing is pending. */
  predicate Settled(p: Parser) {
    && p.pendingStreamInf == None && p.pendingExtinf == None && p.pendingByterange == None
    && p.pendingDiscontinuity == false && p.pendingProgramDateTime == None
  }

  ghost predicate GoodEntry(e: Entry) {
    PlainName(e.file) && (e.key.Some? ==> PlainName(e.key.value.0) && PrintedIv(e.key.value.1))
  }

  lemma ParseKeyLine(p: Parser, rest: string)
    ensures ParseLine(p, "#EXT-X-KEY:" + rest) == Ok(p.(activeKey := KeyFrom(ParseAttrs(rest))))
  {
    hide Classify, ParseAttrs, KeyFrom;
    ClassifyKey(rest);
  }

  lemma NoKeyFrom()
    ensures KeyFrom(ParseAttrs("METHOD=NONE")) == None
  {
    hide ParseAttrs;
    OneAttr(Attr("METHOD", "NONE", false));
    assert PrintAttr(Attr("METHOD", "NONE", false)) == "METHOD=NONE";
    UpperIsSame("NONE");
  }

  lemma AesKeyFrom(file: string, iv: string)
    requires PlainName(file) && PrintedIv(iv)
    ensures KeyFrom(ParseAttrs("METHOD=AES-128,URI=\"" + file + "\",IV=" + iv)) == LocalKey(Some((file, iv)))
  {
    hide ParseAttrs;
    KeyAttrs(file, iv);
    UpperIsSame("AES-128");
  }

  lemma NoLocalKey()
    ensures LocalKey(None) == None
  {
  }

  lemma ReadKeyText(p: Parser, e: Entry)
    requires GoodEntry(e)
    ensures ParseLine(p, KeyText(e.key)) == Ok(p.(activeKey := LocalKey(e.key)))
  {
    hide ParseAttrs, ParseLine, KeyFrom, PlainName, PrintedIv, LocalKey;
    hide Rounded6, Fixed6;
    match e.key {
      case None =>
        assert "#EXT-X-KEY:METHOD=NONE" == "#EXT-X-KEY:" + "METHOD=NONE";
        ParseKeyLine(p, "METHOD=NONE");
        NoKeyFrom();
        NoLocalKey();
      case Some((file, iv)) =>
        var rest := "METHOD=AES-128,URI=\"" + file + "\",IV=" + iv;
        assert KeyText(e.key) == "#EXT-X-KEY:" + rest;
        ParseKeyLine(p, rest);
        AesKeyFrom(file, iv);
    }
  }

  lemma ReadExtinfText(p: Parser, d: real)
    ensures ParseLine(p, ExtinfText(d)) == Ok(p.(pendingExtinf := Some(Rounded6(d)), hasSegmentTag := true))
  {
    hide Classify, ParseFloat, Fixed6, Rounded6;
    var rest := Fixed6(d) + ",";
    assert ExtinfText(d) == "#EXTINF:" + rest;
    ClassifyExtinf(rest);
    ParseFixed6(d);
    Fixed6Chars(d);
    assert rest == Fixed6(d) + "," + "";
    FindAfter(Fixed6(d), ',', "");
    assert rest[..|Fixed6(d)|] == Fixed6(d);
  }

  lemma Fixed6Chars(d: real)
    ensures Fixed6(d) != ""
    ensures forall c :: c in Fixed6(d) ==> '0' <= c <= '9' || c == '.' || c == '-'
  {
    var u := Millionths(Micros(d));
    assert forall i :: 0 <= i < |u| ==> '0' <= u[i] <= '9' || u[i] == '.';
  }

  function LocalSegment(e: Entry, sequence: int): Segment {
    Segment(e.file, Rounded6(e.duration), None, LocalKey(e.key), e.discontinuity, sequence, None)
  }

  lemma ReadOneLine(p: Parser, line: string)
    ensures ParseLines(p, [line]) == ParseLine(p, line)
  {
    hide ParseLine;
    assert [line][1..] == [];
  }

  lemma ReadThree(p: Parser, a: string, p1: Parser, b: string, p2: Parser, c: string)
    requires ParseLine(p, a) == Ok(p1) && ParseLine(p1, b) == Ok(p2)
    ensures ParseLines(p, [a, b, c]) == ParseLine(p2, c)
  {
    hide ParseLine, ParseLines;
    assert [a, b, c] == [a] + ([b] + [c]);
    ParseLinesConcat(p, [a], [b] + [c]);
    ParseLinesConcat(p1, [b], [c]);
    ReadOneLine(p, a);
    ReadOneLine(p1, b);
    ReadOneLine(p2, c);
  }

  /** The parser's variables after one more segment was read. */
  function WithSegment(p: Parser, e: Entry): Parser {
    p.(segments := p.segments + [LocalSegment(e, p.mediaSequence + |p.segments|)],
       activeKey := LocalKey(e.key), hasSegmentTag := true, pendingDiscontinuity := false)
  }

  /** The variables when the file line comes: a key, a duration and maybe a discontinuity are pending. */
  function BeforeFile(p: Parser, e: Entry): Parser {
    p.(activeKey := LocalKey(e.key), pendingExtinf := Some(Rounded6(e.duration)), hasSegmentTag := true,
       pendingDiscontinuity := e.discontinuity)
  }

  lemma ReadFile(p: Parser, e: Entry)
    requires GoodEntry(e) && Settled(p)
    ensures ParseLine(BeforeFile(p, e), e.file) == Ok(WithSegment(p, e))
  {
    hide Classify, Rounded6, LocalKey, ParseAttrs, ParseFloat, VariantFrom;
    ClassifyName(e.file);
  }

  /** The three lines every entry ends with. */
  lemma ReadEntryTail(p: Parser, e: Entry)
    requires Settled(p) && GoodEntry(e)
    ensures ParseLines(p.(pendingDiscontinuity := e.discontinuity),
                       [KeyText(e.key), ExtinfText(e.duration), e.file]) == Ok(WithSegment(p, e))
  {
    hide ParseLine, Rounded6, KeyText, ExtinfText, ParseLines, LocalKey, GoodEntry, WithSegment;
    var q := p.(pendingDiscontinuity := e.discontinuity);
    var q1 := q.(activeKey := LocalKey(e.key));
    ReadKeyText(q, e);
    ReadExtinfText(q1, e.duration);
    ReadFile(p, e);
    ReadThree(q, KeyText(e.key), q1, ExtinfText(e.duration), BeforeFile(p, e), e.file);
  }

  /** Reading one printed entry appends one segment and leaves nothing pending. */
  lemma ReadEntry(p: Parser, e: Entry)
    requires Settled(p) && GoodEntry(e)
    ensures ParseLines(p, EntryLines(e)) == Ok(WithSegment(p, e))
  {
    hide Classify, KeyText, ExtinfText, ParseLines, GoodEntry, WithSegment;
    ReadEntryTail(p, e);
    var tail := [KeyText(e.key), ExtinfText(e.duration), e.file];
    if e.discontinuity {
      ClassifyFixedLines();
      assert EntryLines(e) == ["#EXT-X-DISCONTINUITY"] + tail;
      ParseLinesConcat(p, ["#EXT-X-DISCONTINUITY"], tail);
      ReadOneLine(p, "#EXT-X-DISCONTINUITY");
    } else {
      assert EntryLines(e) == tail;
      assert p.(pendingDiscontinuity := false) == p;
    }
  }

  lemma {:induction false} ParseLinesConcat(p: Parser, a: seq<string>, b: seq<string>)
    ensures ParseLines(p, a + b) ==
            match ParseLines(p, a)
            case Ok(q) => ParseLines(q, b)
            case Err(e) => Err(e)
    decreases |a|
  {
    if a == [] {
      assert a + b == b;
    } else {
      assert (a + b)[1..] == a[1..] + b;
      match ParseLine(p, a[0])
      case Ok(q) => ParseLinesConcat(q, a[1..], b);
      case Err(_) =>
    }
  }

  function LocalSegments(entries: seq<Entry>): seq<Segment> {
    seq(|entries|, i requires 0 <= i < |entries| => LocalSegment(entries[i], i))
  }

  lemma {:induction false} ReadEntries(p: Parser, entries: seq<Entry>)
    requires Settled(p) && p.segments == [] && p.mediaSequence == 0
    requires forall i :: 0 <= i < |entries| ==> GoodEntry(entries[i])
    ensures var r := ParseLines(p, AllEntryLines(entries));
            r.Ok? && Settled(r.value) &&
            r.value == p.(segments := LocalSegments(entries), activeKey := r.value.activeKey,
                          hasSegmentTag := p.hasSegmentTag || entries != [])
  {
    hide ParseLine, EntryLines, LocalSegment, GoodEntry;
    if entries != [] {
      var front, last := entries[..|entries| - 1], entries[|entries| - 1];
      ReadEntries(p, front);
      var q := ParseLines(p, AllEntryLines(front)).value;
      ReadEntry(q, last);
      ParseLinesConcat(p, AllEntryLines(front), EntryLines(last));
      assert LocalSegments(entries) == LocalSegments(front) + [LocalSegment(last, |front|)];
    }
  }

  // ------------------------------------------------------------ the whole playlist

  predicate Printable(line: string) {
    line != "" && forall i :: 0 <= i < |line| ==> '!' <= line[i] <= '~' && line[i] != '/'
  }

  lemma KeyTextPrintable(e: Entry)
    requires GoodEntry(e)
    ensures Printable(KeyText(e.key))
  {
    if e.key.Some? {
      var (file, iv) := e.key.value;
      assert iv[..2] == "0x";
      assert iv[0] == iv[..2][0] && iv[1] == iv[..2][1];
      assert Printable(iv) && Printable(file);
    }
  }

  lemma ExtinfTextPrintable(d: real)
    ensures Printable(ExtinfText(d))
  {
    hide Fixed6;
    Fixed6Chars(d);
    assert forall i :: 0 <= i < |Fixed6(d)| ==> Fixed6(d)[i] in Fixed6(d);
    assert Printable(Fixed6(d));
  }

  lemma EntryPrintable(e: Entry, k: nat)
    requires GoodEntry(e) && k < |EntryLines(e)|
    ensures Printable(EntryLines(e)[k])
  {
    hide KeyText, ExtinfText, Printable, PlainName;
    KeyTextPrintable(e);
    ExtinfTextPrintable(e.duration);
    PlainIsPrintable(e.file);
    FixedPrintable();
  }

  lemma PlainIsPrintable(name: string)
    requires PlainName(name)
    ensures Printable(name)
  {
  }

  lemma FixedPrintable()
    ensures Printable("#EXT-X-DISCONTINUITY") && Printable("#EXTM3U") && Printable("#EXT-X-VERSION:3")
    ensures Printable("#EXT-X-ENDLIST")
  {
  }

  lemma MapTextPrintable(file: string)
    requires PlainName(file)
    ensures Printable(MapText(file))
  {
    PlainIsPrintable(file);
    assert Printable("#EXT-X-MAP:URI=\"");
  }

  lemma {:induction false} EntriesPrintable(entries: seq<Entry>, k: nat)
    requires forall i :: 0 <= i < |entries| ==> GoodEntry(entries[i])
    requires k < |AllEntryLines(entries)|
    ensures Printable(AllEntryLines(entries)[k])
  {
    hide EntryLines, GoodEntry, Printable;
    var front, last := entries[..|entries| - 1], entries[|entries| - 1];
    if k < |AllEntryLines(front)| {
      EntriesPrintable(front, k);
    } else {
      EntryPrintable(last, k - |AllEntryLines(front)|);
    }
  }

  lemma LinesPrintable(mapFile: Option<string>, entries: seq<Entry>)
    requires mapFile.Some? ==> PlainName(mapFile.value)
    requires forall i :: 0 <= i < |entries| ==> GoodEntry(entries[i])
    ensures forall k :: 0 <= k < |PlaylistLines(mapFile, entries)| ==> Printable(PlaylistLines(mapFile, entries)[k])
  {
    hide Printable, GoodEntry, PlainName, MapText, AllEntryLines;
    forall k | 0 <= k < |AllEntryLines(entries)| ensures Printable(AllEntryLines(entries)[k]) {
      EntriesPrintable(entries, k);
    }
    FixedPrintable();
    if mapFile.Some? {
      MapTextPrintable(mapFile.value);
    }
  }

  /** The playlist the parser reads back from a rewritten one. */
  function LocalPlaylist(mapFile: Option<string>, entries: seq<Entry>): Playlist {
    Media(LocalSegments(entries), true, mapFile, None, 0, false)
  }

  lemma ReadMap(p: Parser, file: string)
    requires PlainName(file)
    ensures ParseLine(p, MapText(file)) == Ok(p.(mapUri := Some(file)))
  {
    hide ParseAttrs, Classify;
    var a := Attr("URI", file, true);
    PlainHasNo(file, '"');
    assert MapText(file) == "#EXT-X-MAP:" + PrintAttr(a);
    ClassifyMap(PrintAttr(a));
    OneAttr(a);
  }

  lemma ReadHeader(mapFile: Option<string>)
    requires mapFile.Some? ==> PlainName(mapFile.value)
    ensures ParseLines(START, HeaderLines(mapFile)[1..]) == Ok(START.(mapUri := mapFile))
  {
    hide Classify, ParseAttrs, MapText;
    ClassifyFixedLines();
    var version := ["#EXT-X-VERSION:3"];
    assert version[1..] == [];
    assert ParseLines(START, version) == Ok(START);
    match mapFile
    case None =>
      assert HeaderLines(mapFile)[1..] == version;
    case Some(file) =>
      ReadMap(START, file);
      assert HeaderLines(mapFile)[1..] == version + [MapText(file)];
      ParseLinesConcat(START, version, [MapText(file)]);
      assert [MapText(file)][1..] == [];
  }

  lemma ReadPlaylistLines(mapFile: Option<string>, entries: seq<Entry>)
    requires mapFile.Some? ==> PlainName(mapFile.value)
    requires forall i :: 0 <= i < |entries| ==> GoodEntry(entries[i])
    ensures var r := ParseLines(START, PlaylistLines(mapFile, entries)[1..]);
            r.Ok? && r.value == START.(mapUri := mapFile, segments := LocalSegments(entries), hasEndlist := true,
                                       activeKey := r.value.activeKey, hasSegmentTag := entries != [])
  {
    hide Classify, ParseAttrs, HeaderLines, AllEntryLines, LocalSegments, GoodEntry, PlaylistLines;
    var header, body, end := HeaderLines(mapFile), AllEntryLines(entries), ["#EXT-X-ENDLIST"];
    WithoutFirst(mapFile, entries);
    ReadHeader(mapFile);
    var p := START.(mapUri := mapFile);
    ReadEntries(p, entries);
    var q := ParseLines(p, body).value;
    ParseLinesConcat(START, header[1..], body + end);
    ParseLinesConcat(p, body, end);
    ClassifyFixedLines();
    assert end[1..] == [];
    assert ParseLines(q, end) == Ok(q.(hasEndlist := true));
  }

  lemma WithoutFirst(mapFile: Option<string>, entries: seq<Entry>)
    ensures PlaylistLines(mapFile, entries) != [] && PlaylistLines(mapFile, entries)[0] == "#EXTM3U"
    ensures |HeaderLines(mapFile)| > 0
    ensures PlaylistLines(mapFile, entries)[1..]
         == HeaderLines(mapFile)[1..] + (AllEntryLines(entries) + ["#EXT-X-ENDLIST"])
  {
    var header, body, end := HeaderLines(mapFile), AllEntryLines(entries), ["#EXT-X-ENDLIST"];
    assert header[0] == "#EXTM3U";
    assert header + body + end == [header[0]] + (header[1..] + (body + end));
  }

  /** Main result: the parser reads a rewritten playlist back exactly. */
  lemma ParseUndoesPrint(mapFile: Option<string>, entries: seq<Entry>)
    requires mapFile.Some? ==> PlainName(mapFile.value)
    requires entries != [] && forall i :: 0 <= i < |entries| ==> GoodEntry(entries[i])
    ensures Parsed(JoinLines(PlaylistLines(mapFile, entries))) == Ok(LocalPlaylist(mapFile, entries))
  {
    hide PlaylistLines, ParseLines, ParseLine, GoodEntry, LocalSegments, Printable;
    var lines := PlaylistLines(mapFile, entries);
    LinesPrintable(mapFile, entries);
    forall k | 0 <= k < |lines| ensures CleanLine(lines[k]) { PrintableIsClean(lines[k]); }
    LinesOfJoined(lines);
    WithoutFirst(mapFile, entries);
    ReadPlaylistLines(mapFile, entries);
    LocalSegmentsCount(entries);
  }

  lemma PrintableIsClean(line: string)
    requires Printable(line)
    ensures CleanLine(line)
  {
  }

  lemma LocalSegmentsCount(entries: seq<Entry>)
    ensures |LocalSegments(entries)| == |entries|
  {
  }

  /** `_assert_local_only` never fires: a rewritten playlist has no slash in it. */
  lemma RewrittenIsLocal(mapFile: Option<string>, entries: seq<Entry>)
    requires mapFile.Some? ==> PlainName(mapFile.value)
    requires forall i :: 0 <= i < |entries| ==> GoodEntry(entries[i])
    ensures forall i :: 0 <= i < |JoinLines(PlaylistLines(mapFile, entries))| ==>
              JoinLines(PlaylistLines(mapFile, entries))[i] != '/'
  {
    LinesPrintable(mapFile, entries);
    JoinedHasNoSlash(PlaylistLines(mapFile, entries));
  }

  lemma {:induction false} JoinedHasNoSlash(lines: seq<string>)
    requires forall k :: 0 <= k < |lines| ==> Printable(lines[k])
    ensures forall i :: 0 <= i < |JoinLines(lines)| ==> JoinLines(lines)[i] != '/'
  {
    if lines != [] {
      JoinedHasNoSlash(lines[1..]);
      assert Printable(lines[0]);
    }
  }

  // ------------------------------------------------------------ what survives the rewriting

  /** The vector a decoder uses: the explicit one, or the media sequence number. */
  function EffectiveIv(s: Segment): Option<Result<string, string>> {
    if s.key.None? then None else Some(NormalizeIv(s.key.value.iv, s.sequence))
  }

  lemma EntriesAreGood(segments: seq<Segment>, files: seq<string>, keyFiles: map<string, string>,
                       resolve: string -> string, entries: seq<Entry>)
    requires EntriesOf(segments, files, keyFiles, resolve, entries)
    requires forall i :: 0 <= i < |files| ==> PlainName(files[i])
    requires forall u :: u in keyFiles ==> PlainName(keyFiles[u])
    ensures forall i :: 0 <= i < |entries| ==> GoodEntry(entries[i])
  {
    forall i | 0 <= i < |entries| ensures GoodEntry(entries[i]) {
      EntryIs(segments[i], files[i], keyFiles, resolve);
      if segments[i].key.Some? {
        NormalizedIv(segments[i].key.value.iv, segments[i].sequence);
      }
    }
  }

  /** One segment before and after: same order, break, length to six decimals, encryption, key and vector. */
  ghost predicate SameMeaning(original: Segment, local: Segment, index: int, file: string,
                              keyFiles: map<string, string>, resolve: string -> string)
  {
    && local.uri == file && local.sequence == index && local.byterange == None
    && local.discontinuity == original.discontinuity
    && local.duration == Rounded6(original.duration)
    && (local.key.Some? <==> original.key.Some?)
    && EffectiveIv(local) == EffectiveIv(original)
    && (original.key.Some? ==>
          var url := resolve(if original.key.value.uri.Some? then original.key.value.uri.value else "");
          && local.key.value.cipher == "AES-128"
          && url in keyFiles && local.key.value.uri == Some(keyFiles[url]))
  }

  lemma EntryKeepsMeaning(segment: Segment, file: string, keyFiles: map<string, string>, resolve: string -> string,
                          e: Entry, index: int)
    requires EntryFor(segment, file, keyFiles, resolve) == Ok(e)
    ensures SameMeaning(segment, LocalSegment(e, index), index, file, keyFiles, resolve)
  {
    EntryIs(segment, file, keyFiles, resolve);
    if segment.key.Some? {
      NormalizeIvIdempotent(segment.key.value.iv, segment.sequence, index);
    }
  }

  /** Rewriting keeps the meaning of every playlist that can be rewritten at all. */
  lemma RewritingKeepsMeaning(segments: seq<Segment>, mapFile: Option<string>, files: seq<string>,
                              keyFiles: map<string, string>, resolve: string -> string, entries: seq<Entry>)
    requires segments != [] && EntriesOf(segments, files, keyFiles, resolve, entries)
    requires mapFile.Some? ==> PlainName(mapFile.value)
    requires forall i :: 0 <= i < |files| ==> PlainName(files[i])
    requires forall u :: u in keyFiles ==> PlainName(keyFiles[u])
    ensures var r := Parsed(JoinLines(PlaylistLines(mapFile, entries)));
            && r.Ok? && r.value.Media? && r.value.hasEndlist && r.value.mapUri == mapFile && r.value.mapByterange == None
            && |r.value.segments| == |segments|
            && forall i :: 0 <= i < |segments| ==>
                 SameMeaning(segments[i], r.value.segments[i], i, files[i], keyFiles, resolve)
  {
    hide Parsed, SameMeaning, LocalSegment, EntryFor;
    EntriesAreGood(segments, files, keyFiles, resolve, entries);
    ParseUndoesPrint(mapFile, entries);
    forall i | 0 <= i < |segments|
      ensures SameMeaning(segments[i], LocalSegment(entries[i], i), i, files[i], keyFiles, resolve)
    {
      EntryKeepsMeaning(segments[i], files[i], keyFiles, resolve, entries[i], i);
    }
  }
}

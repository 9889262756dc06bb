/** HLS playlists: the line-oriented parser (RFC 8216, as the code reads it), the
    printers that rewrite a remote playlist into a local one with explicit
    initialization vectors, and the proof that printing keeps the meaning. */
module HlsPlaylist {
  import opened Common
  import opened PyText

  type Attrs = map<string, string>

  datatype ByteRange = ByteRange(length: int, offset: int)

  datatype KeyInfo = KeyInfo(cipher: string, uri: Option<string>, iv: Option<string>, keyformat: Option<string>)

  datatype Segment = Segment(
    uri: string, duration: real, byterange: Option<ByteRange>, key: Option<KeyInfo>,
    discontinuity: bool, sequence: int, programDateTime: Option<string>)

  datatype Variant = Variant(
    uri: string, bandwidth: Option<int>, height: Option<int>, width: Option<int>, audioGroup: Option<string>)

  datatype Playlist =
    | Master(variants: seq<Variant>, mediaGroups: map<string, seq<Attrs>>)
    | Media(segments: seq<Segment>, hasEndlist: bool, mapUri: Option<string>, mapByterange: Option<ByteRange>,
            mediaSequence: int, hasProgramDateTime: bool)

  function Get(attrs: Attrs, name: string): Option<string> {
    if name in attrs then Some(attrs[name]) else None
  }

  /** Python's truth test on an optional string. */
  predicate Truthy(s: Option<string>) { s.Some? && s.value != "" }

  // ------------------------------------------------------------ attribute lists

  predicate IsNameChar(c: char) { 'A' <= c <= 'Z' || '0' <= c <= '9' || c == '-' }

  /** Length of the longest run of name characters at the front. */
  function NameLength(s: string): (n: nat)
    ensures n <= |s| && (n < |s| ==> !IsNameChar(s[n]))
    ensures forall i :: 0 <= i < n ==> IsNameChar(s[i])
  {
    if s == "" || !IsNameChar(s[0]) then 0 else 1 + NameLength(s[1..])
  }

  /** How much of `s` the value pattern takes: a closed quoted string, else up to a comma. */
  function ValueLength(s: string): (n: nat)
    ensures n <= |s|
  {
    if s != "" && s[0] == '"' && Find(s[1..], '"') < |s| - 1 then Find(s[1..], '"') + 2
    else Find(s, ',')
  }

  /** Drops one pair of quotes; a lone quote counts as both. */
  function Unquote(v: string): string {
    if v != "" && v[0] == '"' && v[|v| - 1] == '"' then (if |v| == 1 then "" else v[1..|v| - 1]) else v
  }

  /** Whether the attribute pattern matches at the front of `s`. */
  predicate AttrAt(s: string) {
    0 < NameLength(s) < |s| && s[NameLength(s)] == '='
  }

  function AttrEnd(s: string): (e: nat)
    requires AttrAt(s)
    ensures 0 < e <= |s|
  {
    NameLength(s) + 1 + ValueLength(s[NameLength(s) + 1..])
  }

  /** `_parse_attributes`: every match of the pattern, left to right; later names win. */
  function ParseAttrs(s: string): Attrs
    decreases |s|
  {
    if s == "" then map[]
    else if AttrAt(s) then
      map[s[..NameLength(s)] := Unquote(s[NameLength(s) + 1..AttrEnd(s)])] + ParseAttrs(s[AttrEnd(s)..])
    else ParseAttrs(s[1..])
  }

  method ParseAttributes(rest: string) returns (attrs: Attrs)
    ensures attrs == ParseAttrs(rest)
  {
    attrs := map[];
    var s := rest;
    while s != ""
      invariant attrs + ParseAttrs(s) == ParseAttrs(rest)
      decreases |s|
    {
      if AttrAt(s) {
        var name, value := s[..NameLength(s)], s[NameLength(s) + 1..AttrEnd(s)];
        assert attrs + (map[name := Unquote(value)] + ParseAttrs(s[AttrEnd(s)..]))
            == attrs[name := Unquote(value)] + ParseAttrs(s[AttrEnd(s)..]);
        attrs := attrs[name := Unquote(value)];
        s := s[AttrEnd(s)..];
      } else {
        s := s[1..];
      }
    }
  }

  /** One attribute of a printed list. */
  datatype Attr = Attr(name: string, value: string, quoted: bool)

  ghost predicate PrintableAttr(a: Attr) {
    && a.name != ""
    && (forall i :: 0 <= i < |a.name| ==> 'A' <= a.name[i] <= 'Z' || '0' <= a.name[i] <= '9' || a.name[i] == '-')
    && (if a.quoted then '"' !in a.value else ',' !in a.value && (a.value != "" ==> a.value[0] != '"'))
  }

  function PrintAttr(a: Attr): string {
    a.name + "=" + (if a.quoted then "\"" + a.value + "\"" else a.value)
  }

  function PrintAttrs(attrs: seq<Attr>): string {
    if attrs == [] then ""
    else if |attrs| == 1 then PrintAttr(attrs[0])
    else PrintAttr(attrs[0]) + "," + PrintAttrs(attrs[1..])
  }

  function AttrMap(attrs: seq<Attr>): Attrs {
    if attrs == [] then map[] else map[attrs[0].name := attrs[0].value] + AttrMap(attrs[1..])
  }

  lemma NameRun(name: string, rest: string)
    requires name != "" && forall i :: 0 <= i < |name| ==> IsNameChar(name[i])
    ensures NameLength(name + "=" + rest) == |name|
    ensures AttrAt(name + "=" + rest)
  {
    var s := name + "=" + rest;
    assert s[|name|] == '=';
    var n := NameLength(s);
    assert n <= |name|;
    assert forall i :: 0 <= i < |name| ==> s[i] == name[i];
  }

  lemma ValueRun(a: Attr, tail: string)
    requires PrintableAttr(a) && (tail == "" || tail[0] == ',')
    ensures var v := if a.quoted then "\"" + a.value + "\"" else a.value;
            ValueLength(v + tail) == |v| && Unquote(v) == a.value
  {
    if a.quoted {
      var v := "\"" + a.value + "\"";
      var s := v + tail;
      assert s[1..] == a.value + "\"" + tail;
      FindAfter(a.value, '"', tail);
      assert v[1..|v| - 1] == a.value;
    } else if tail == "" {
      assert a.value + tail == a.value;
      FindNone(a.value, ',');
    } else {
      assert tail == "," + tail[1..];
      assert a.value + tail == a.value + "," + tail[1..];
      FindAfter(a.value, ',', tail[1..]);
    }
  }

  /** Where the pieces of a printed attribute lie. */
  lemma AttrPieces(a: Attr, tail: string)
    requires PrintableAttr(a) && (tail == "" || tail[0] == ',')
    ensures var s := PrintAttr(a) + tail;
            && AttrAt(s) && NameLength(s) == |a.name| && s[..|a.name|] == a.name
            && |a.name| < AttrEnd(s) == |PrintAttr(a)| && s[AttrEnd(s)..] == tail
            && Unquote(s[|a.name| + 1..AttrEnd(s)]) == a.value
  {
    hide Find, NameLength, ValueLength, Unquote;
    var v := if a.quoted then "\"" + a.value + "\"" else a.value;
    var s := PrintAttr(a) + tail;
    assert s == a.name + "=" + (v + tail);
    NameRun(a.name, v + tail);
    ValueRun(a, tail);
    assert s[|a.name| + 1..] == v + tail;
    assert s[|a.name| + 1..|a.name| + 1 + |v|] == v;
  }

  /** One printed attribute is read back, and reading goes on after it. */
  lemma ReadOne(a: Attr, tail: string)
    requires PrintableAttr(a) && (tail == "" || tail[0] == ',')
    ensures ParseAttrs(PrintAttr(a) + tail) == map[a.name := a.value] + ParseAttrs(tail)
  {
    hide PrintAttr, AttrAt, NameLength, AttrEnd, Unquote, PrintableAttr;
    AttrPieces(a, tail);
    var s := PrintAttr(a) + tail;
    assert ParseAttrs(s) == map[s[..NameLength(s)] := Unquote(s[NameLength(s) + 1..AttrEnd(s)])] + ParseAttrs(s[AttrEnd(s)..]);
  }

  /** The attribute-list parser undoes the printer, commas inside quotes included. */
  lemma {:induction false} ParseUndoesPrintAttrs(attrs: seq<Attr>)
    requires forall k :: 0 <= k < |attrs| ==> PrintableAttr(attrs[k])
    ensures ParseAttrs(PrintAttrs(attrs)) == AttrMap(attrs)
  {
    if |attrs| == 1 {
      ReadOne(attrs[0], "");
      assert PrintAttr(attrs[0]) + "" == PrintAttr(attrs[0]);
    } else if |attrs| > 1 {
      var tail := "," + PrintAttrs(attrs[1..]);
      assert PrintAttrs(attrs) == PrintAttr(attrs[0]) + tail;
      ReadOne(attrs[0], tail);
      ParseUndoesPrintAttrs(attrs[1..]);
      assert tail[1..] == PrintAttrs(attrs[1..]);
      assert !AttrAt(tail) by { assert !IsNameChar(tail[0]); }
    }
  }

  /** How a value is written before `after`: in quotes, or bare up to the next comma, where a first
      quote may only stand if no other follows; a quote on its own is an empty value. */
  ghost predicate Writes(shown: string, value: string, after: string) {
    || (shown == "\"" + value + "\"" && '"' !in value)
    || (shown == "\"" && value == "" && (after == "" || after[0] == ','))
    || (shown == value && ',' !in value && (after == "" || after[0] == ',')
        && (value != "" && value[0] == '"' ==> |value| > 1 && '"' !in value[1..]))
  }

  /** The text writes the attribute: a name of capital letters, digits and hyphens, an equals sign
      and the value. */
  ghost predicate AttrFound(s: string, name: string, value: string) {
    && name != "" && (forall i :: 0 <= i < |name| ==> 'A' <= name[i] <= 'Z' || '0' <= name[i] <= '9' || name[i] == '-')
    && exists before, shown, after :: s == before + (name + "=" + (shown + after)) && Writes(shown, value, after)
  }

  lemma AttrFoundLater(s: string, n: nat, name: string, value: string)
    requires n <= |s| && AttrFound(s[n..], name, value)
    ensures AttrFound(s, name, value)
  {
    hide Writes;
    var before, shown, after :| s[n..] == before + (name + "=" + (shown + after)) && Writes(shown, value, after);
    assert s == (s[..n] + before) + (name + "=" + (shown + after));
  }

  lemma ValueIsWritten(s: string)
    ensures Writes(s[..ValueLength(s)], Unquote(s[..ValueLength(s)]), s[ValueLength(s)..])
  {
    var v, after := s[..ValueLength(s)], s[ValueLength(s)..];
    if v != "" && v[0] == '"' {
      if |v| > 1 && v[|v| - 1] == '"' {
        assert v == "\"" + v[1..|v| - 1] + "\"";
        assert '"' !in v[1..|v| - 1];
      }
    } else {
      assert ',' !in v;
    }
  }

  lemma AttrHere(s: string)
    requires AttrAt(s)
    ensures AttrFound(s, s[..NameLength(s)], Unquote(s[NameLength(s) + 1..AttrEnd(s)]))
  {
    hide Unquote, Writes, ValueLength, NameLength;
    var n := NameLength(s);
    var rest := s[n + 1..];
    ValueIsWritten(rest);
    var shown, after := rest[..ValueLength(rest)], rest[ValueLength(rest)..];
    assert s[n + 1..AttrEnd(s)] == shown;
    Spliced(s, n, shown, after);
  }

  lemma Spliced(s: string, n: nat, shown: string, after: string)
    requires n < |s| && s[n] == '=' && s[n + 1..] == shown + after
    ensures s == "" + (s[..n] + "=" + (shown + after))
  {
    assert s == s[..n] + [s[n]] + s[n + 1..];
  }

  /** Whatever the text: every attribute read stands in it, name, equals sign and value. */
  lemma {:induction false} AttrsStandInText(s: string, name: string)
    ensures name in ParseAttrs(s) ==> AttrFound(s, name, ParseAttrs(s)[name])
    decreases |s|
  {
    if s != "" && name in ParseAttrs(s) {
      hide AttrFound, Unquote, AttrAt, AttrEnd, NameLength;
      if AttrAt(s) {
        AttrsStandInText(s[AttrEnd(s)..], name);
        AttrHere(s);
        if name in ParseAttrs(s[AttrEnd(s)..]) {
          AttrFoundLater(s, AttrEnd(s), name, ParseAttrs(s)[name]);
        }
      } else {
        AttrsStandInText(s[1..], name);
        AttrFoundLater(s, 1, name, ParseAttrs(s)[name]);
      }
    }
  }

  // ------------------------------------------------------------ the parser

  function ParseByterange(value: string): Result<ByteRange, string> {
    var v := Strip(value);
    var at := Find(v, '@');
    if at < |v| then
      match (ParseInt(v[..at]), ParseInt(v[at + 1..]))
      case (Some(length), Some(offset)) => Ok(ByteRange(length, offset))
      case _ => Err("invalid BYTERANGE")
    else
      match ParseInt(v)
      case Some(length) => Ok(ByteRange(length, 0))
      case None => Err("invalid BYTERANGE")
  }

  function VariantFrom(attrs: Attrs, uri: string): Variant {
    var resolution := Get(attrs, "RESOLUTION");
    var size := if Truthy(resolution) then Lower(resolution.value) else "";
    var x := Find(size, 'x');
    var width := if x < |size| then ParseInt(size[..x]) else None;
    var height := if x < |size| then ParseInt(size[x + 1..]) else None;
    var known := width.Some? && height.Some?;
    var bandwidth := Get(attrs, "BANDWIDTH");
    Variant(uri,
            if Truthy(bandwidth) then ParseInt(bandwidth.value) else None,
            if known then height else None,
            if known then width else None,
            Get(attrs, "AUDIO"))
  }

  function KeyFrom(attrs: Attrs): Option<KeyInfo> {
    var cipher := Upper(if "METHOD" in attrs then attrs["METHOD"] else "NONE");
    if cipher == "NONE" then None
    else Some(KeyInfo(cipher, Get(attrs, "URI"), Get(attrs, "IV"), Get(attrs, "KEYFORMAT")))
  }

  const STREAM_INF := "#EXT-X-STREAM-INF:"
  const MEDIA := "#EXT-X-MEDIA:"
  const KEY := "#EXT-X-KEY:"
  const MAP := "#EXT-X-MAP:"
  const EXTINF := "#EXTINF:"
  const BYTERANGE := "#EXT-X-BYTERANGE:"
  const MEDIA_SEQUENCE := "#EXT-X-MEDIA-SEQUENCE:"
  const PROGRAM_DATE_TIME := "#EXT-X-PROGRAM-DATE-TIME:"
  const DISCONTINUITY := "#EXT-X-DISCONTINUITY"
  const ENDLIST := "#EXT-X-ENDLIST"

  /** What a line is, with the text after its tag. */
  datatype Line =
    | StreamInfLine(rest: string) | MediaLine(rest: string) | KeyLine(rest: string) | MapLine(rest: string)
    | ExtinfLine(rest: string) | ByterangeLine(rest: string) | MediaSequenceLine(rest: string)
    | ProgramDateTimeLine(rest: string) | DiscontinuityLine | EndlistLine | OtherTag | UriLine

  /** The tests in the order the code makes them: prefixes, so for instance
      `#EXT-X-DISCONTINUITY-SEQUENCE` is a discontinuity line. */
  function Classify(line: string): Line {
    if StartsWith(line, STREAM_INF) then StreamInfLine(line[|STREAM_INF|..])
    else if StartsWith(line, MEDIA) then MediaLine(line[|MEDIA|..])
    else if StartsWith(line, KEY) then KeyLine(line[|KEY|..])
    else if StartsWith(line, MAP) then MapLine(line[|MAP|..])
    else if StartsWith(line, EXTINF) then ExtinfLine(line[|EXTINF|..])
    else if StartsWith(line, BYTERANGE) then ByterangeLine(line[|BYTERANGE|..])
    else if StartsWith(line, MEDIA_SEQUENCE) then MediaSequenceLine(line[|MEDIA_SEQUENCE|..])
    else if StartsWith(line, PROGRAM_DATE_TIME) then ProgramDateTimeLine(line[|PROGRAM_DATE_TIME|..])
    else if StartsWith(line, DISCONTINUITY) then DiscontinuityLine
    else if StartsWith(line, ENDLIST) then EndlistLine
    else if StartsWith(line, "#") then OtherTag
    else UriLine
  }

  /** The parser's local variables. */
  datatype Parser = Parser(
    variants: seq<Variant>, mediaGroups: map<string, seq<Attrs>>, segments: seq<Segment>,
    hasEndlist: bool, hasStreamInf: bool, hasSegmentTag: bool,
    mapUri: Option<string>, mapByterange: Option<ByteRange>,
    pendingStreamInf: Option<Attrs>, pendingExtinf: Option<real>, pendingByterange: Option<ByteRange>,
    pendingDiscontinuity: bool, activeKey: Option<KeyInfo>, mediaSequence: int,
    pendingProgramDateTime: Option<string>, hasProgramDateTime: bool)

  const START := Parser([], map[], [], false, false, false, None, None, None, None, None, false, None, 0, None, false)

  function OnMap(p: Parser, attrs: Attrs): Result<Parser, string> {
    var uri := Get(attrs, "URI");
    if !Truthy(uri) then Err("EXT-X-MAP without URI")
    else if !Truthy(Get(attrs, "BYTERANGE")) then Ok(p.(mapUri := uri))
    else
      match ParseByterange(attrs["BYTERANGE"])
      case Ok(range) => Ok(p.(mapUri := uri, mapByterange := Some(range)))
      case Err(e) => Err(e)
  }

  function OnUri(p: Parser, line: string): Result<Parser, string> {
    if p.pendingStreamInf.Some? then
      Ok(p.(variants := p.variants + [VariantFrom(p.pendingStreamInf.value, line)], pendingStreamInf := None))
    else if p.pendingExtinf.Some? then
      var segment := Segment(line, p.pendingExtinf.value, p.pendingByterange, p.activeKey, p.pendingDiscontinuity,
                             p.mediaSequence + |p.segments|, p.pendingProgramDateTime);
      Ok(p.(segments := p.segments + [segment], pendingExtinf := None, pendingByterange := None,
            pendingDiscontinuity := false, pendingProgramDateTime := None))
    else Err("unexpected URI line")
  }

  /** One iteration of the parser's loop. */
  function ParseLine(p: Parser, line: string): Result<Parser, string> {
    match Classify(line)
    case StreamInfLine(rest) => Ok(p.(pendingStreamInf := Some(ParseAttrs(rest)), hasStreamInf := true))
    case MediaLine(rest) =>
      var attrs := ParseAttrs(rest);
      var id := Get(attrs, "GROUP-ID");
      if !Truthy(id) then Ok(p)
      else
        var known := if id.value in p.mediaGroups then p.mediaGroups[id.value] else [];
        Ok(p.(mediaGroups := p.mediaGroups[id.value := known + [attrs]]))
    case KeyLine(rest) => Ok(p.(activeKey := KeyFrom(ParseAttrs(rest))))
    case MapLine(rest) => OnMap(p, ParseAttrs(rest))
    case ExtinfLine(rest) =>
      (match ParseFloat(rest[..Find(rest, ',')])
       case Some(d) => Ok(p.(pendingExtinf := Some(d), hasSegmentTag := true))
       case None => Err("invalid EXTINF"))
    case ByterangeLine(rest) =>
      (match ParseByterange(rest)
       case Ok(range) => Ok(p.(pendingByterange := Some(range)))
       case Err(e) => Err(e))
    case MediaSequenceLine(rest) =>
      (match ParseInt(rest)
       case Some(n) => Ok(p.(mediaSequence := n))
       case None => Err("invalid media sequence"))
    case ProgramDateTimeLine(rest) => Ok(p.(pendingProgramDateTime := Some(rest), hasProgramDateTime := true))
    case DiscontinuityLine => Ok(p.(pendingDiscontinuity := true))
    case EndlistLine => Ok(p.(hasEndlist := true))
    case OtherTag => Ok(p)
    case UriLine => OnUri(p, line)
  }

  function ParseLines(p: Parser, lines: seq<string>): Result<Parser, string>
    decreases |lines|
  {
    if lines == [] then Ok(p)
    else
      match ParseLine(p, lines[0])
      case Ok(next) => ParseLines(next, lines[1..])
      case Err(e) => Err(e)
  }

  function Finish(p: Parser): Result<Playlist, string> {
    if p.hasStreamInf && p.hasSegmentTag then Err("playlist mixes master and media tags")
    else if p.hasStreamInf then
      if p.variants == [] then Err("master playlist has no variants") else Ok(Master(p.variants, p.mediaGroups))
    else if p.segments == [] then Err("playlist has neither variants nor segments")
    else Ok(Media(p.segments, p.hasEndlist, p.mapUri, p.mapByterange, p.mediaSequence, p.hasProgramDateTime))
  }

  /** `parse_playlist` as a function of the text. */
  function Parsed(text: string): Result<Playlist, string> {
    var lines := NonblankLines(text);
    if lines == [] || lines[0] != "#EXTM3U" then Err("missing #EXTM3U header")
    else
      match ParseLines(START, lines[1..])
      case Ok(p) => Finish(p)
      case Err(e) => Err(e)
  }

  lemma NextLine(p: Parser, lines: seq<string>, i: nat)
    requires i < |lines|
    ensures ParseLines(p, lines[i..]) ==
            match ParseLine(p, lines[i])
            case Ok(next) => ParseLines(next, lines[i + 1..])
            case Err(e) => Err(e)
  {
    assert lines[i..][1..] == lines[i + 1..];
  }

  /** `parse_playlist` as written: a loop over the lines that updates its variables. */
  method ParsePlaylist(text: string) returns (r: Result<Playlist, string>)
    ensures r == Parsed(text)
  {
    hide ParseAttrs, Classify, ParseFloat, ParseInt, ParseByterange, VariantFrom, KeyFrom, Find, NonblankLines, ParseLines, Finish;
    var lines := NonblankLines(text);
    if |lines| == 0 || lines[0] != "#EXTM3U" {
      return Err("missing #EXTM3U header");
    }
    var p := START;
    for i := 1 to |lines|
      invariant ParseLines(START, lines[1..]) == ParseLines(p, lines[i..])
    {
      NextLine(p, lines, i);
      match Classify(lines[i]) {
        case StreamInfLine(rest) =>
          var attrs := ParseAttributes(rest);
          p := p.(pendingStreamInf := Some(attrs), hasStreamInf := true);
        case MediaLine(rest) =>
          var attrs := ParseAttributes(rest);
          var id := Get(attrs, "GROUP-ID");
          if Truthy(id) {
            var known := if id.value in p.mediaGroups then p.mediaGroups[id.value] else [];
            p := p.(mediaGroups := p.mediaGroups[id.value := known + [attrs]]);
          }
        case KeyLine(rest) =>
          var attrs := ParseAttributes(rest);
          p := p.(activeKey := KeyFrom(attrs));
        case MapLine(rest) =>
          var attrs := ParseAttributes(rest);
          var uri := Get(attrs, "URI");
          if !Truthy(uri) {
            return Err("EXT-X-MAP without URI");
          }
          p := p.(mapUri := uri);
          if Truthy(Get(attrs, "BYTERANGE")) {
            match ParseByterange(attrs["BYTERANGE"]) {
              case Ok(range) => p := p.(mapByterange := Some(range));
              case Err(e) => return Err(e);
            }
          }
        case ExtinfLine(rest) =>
          match ParseFloat(rest[..Find(rest, ',')]) {
            case Some(d) => p := p.(pendingExtinf := Some(d));
            case None => return Err("invalid EXTINF");
          }
          p := p.(hasSegmentTag := true);
        case ByterangeLine(rest) =>
          match ParseByterange(rest) {
            case Ok(range) => p := p.(pendingByterange := Some(range));
            case Err(e) => return Err(e);
          }
        case MediaSequenceLine(rest) =>
          match ParseInt(rest) {
            case Some(n) => p := p.(mediaSequence := n);
            case None => return Err("invalid media sequence");
          }
        case ProgramDateTimeLine(rest) =>
          p := p.(pendingProgramDateTime := Some(rest), hasProgramDateTime := true);
        case DiscontinuityLine =>
          p := p.(pendingDiscontinuity := true);
        case EndlistLine =>
          p := p.(hasEndlist := true);
        case OtherTag =>
        case UriLine =>
          if p.pendingStreamInf.Some? {
            p := p.(variants := p.variants + [VariantFrom(p.pendingStreamInf.value, lines[i])], pendingStreamInf := None);
          } else if p.pendingExtinf.Some? {
            var segment := Segment(lines[i], p.pendingExtinf.value, p.pendingByterange, p.activeKey,
                                   p.pendingDiscontinuity, p.mediaSequence + |p.segments|, p.pendingProgramDateTime);
            p := p.(segments := p.segments + [segment], pendingExtinf := None, pendingByterange := None,
                    pendingDiscontinuity := false, pendingProgramDateTime := None);
          } else {
            return Err("unexpected URI line");
          }
      }
    }
    AllLinesRead(p, lines);
    r := Finish(p);
  }

  lemma AllLinesRead(p: Parser, lines: seq<string>)
    ensures ParseLines(p, lines[|lines|..]) == Ok(p)
  {
  }
}

/** The local playlists ffmpeg reads: how a remote playlist is rewritten with local
    file names and explicit initialization vectors, and the proof that the parser
    reads the rewritten playlist back with the same meaning. */
module HlsRender {
  import opened Common
  import opened PyText
  import opened HlsPlaylist

  // ------------------------------------------------------------ initialization vectors

  /** `_normalize_iv`: 128 bits in hexadecimal; the media sequence number when none is given. */
  function NormalizeIv(value: Option<string>, sequence: int): Result<string, string> {
    match value
    case None =>
      if 0 <= sequence < Pow(16, 32) then Ok("0x" + Numeral(sequence, 16, 32)) else Err("int too big to convert")
    case Some(v) =>
      var text := RemovePrefix(RemovePrefix(v, "0x"), "0X");
      if text == "" || |text| > 32 || !AllDigits(text, 16) then Err("invalid AES-128 IV")
      else Ok("0x" + Numeral(Value(text, 16), 16, 32))
  }

  lemma {:induction false} PowMonotone(base: Base, j: nat, k: nat)
    requires j <= k
    ensures Pow(base, j) <= Pow(base, k)
    decreases k
  {
    if j < k {
      PowMonotone(base, j, k - 1);
    }
  }

  /** A normalized vector has 32 lower-case digits and stands for the number it was made from. */
  lemma NormalizedIv(value: Option<string>, sequence: int)
    requires NormalizeIv(value, sequence).Ok?
    ensures var iv := NormalizeIv(value, sequence).value;
            && |iv| == 34 && StartsWith(iv, "0x")
            && (forall i :: 2 <= i < 34 ==> PrintedDigit(iv[i], 16))
            && Value(iv[2..], 16) == match value case None => sequence
                                     case Some(v) => Value(RemovePrefix(RemovePrefix(v, "0x"), "0X"), 16)
  {
    var iv := NormalizeIv(value, sequence).value;
    var n := match value case None => sequence
             case Some(v) => Value(RemovePrefix(RemovePrefix(v, "0x"), "0X"), 16);
    hide Numeral, Value, RemovePrefix;
    if value.Some? {
      var text := RemovePrefix(RemovePrefix(value.value, "0x"), "0X");
      ValueBound(text, 16);
      PowMonotone(16, |text|, 32);
    }
    NumeralWidth(n, 16, 32);
    NumeralValue(n, 16, 32);
    assert iv == "0x" + Numeral(n, 16, 32) && iv[2..] == Numeral(n, 16, 32);
  }

  /** Normalizing twice changes nothing, whatever sequence number comes with it. */
  lemma NormalizeIvIdempotent(value: Option<string>, sequence: int, other: int)
    requires NormalizeIv(value, sequence).Ok?
    ensures NormalizeIv(Some(NormalizeIv(value, sequence).value), other) == NormalizeIv(value, sequence)
  {
    var iv := NormalizeIv(value, sequence).value;
    NormalizedIv(value, sequence);
    var digits := iv[2..];
    assert forall i :: 0 <= i < 32 ==> digits[i] == iv[i + 2];
    assert RemovePrefix(iv, "0x") == digits;
    assert RemovePrefix(digits, "0X") == digits by { assert PrintedDigit(digits[1], 16); }
    var n := Value(digits, 16);
    assert iv == "0x" + Numeral(n, 16, 32) by {
      if value.Some? {
        assert n == Value(RemovePrefix(RemovePrefix(value.value, "0x"), "0X"), 16);
      }
    }
  }

  predicate HexDigit(c: char) { '0' <= c <= '9' || 'a' <= c <= 'f' || 'A' <= c <= 'F' }

  /** 1 to 32 hexadecimal digits, bare, after `0x`, after `0X`, or, as two prefixes are removed
      one after the other, after `0x0X`. */
  ghost predicate IsVectorText(v: string) {
    exists prefix: string, digits: string ::
      && v == prefix + digits && prefix in ["", "0x", "0X", "0x0X"]
      && 1 <= |digits| <= 32 && forall c :: c in digits ==> HexDigit(c)
  }

  lemma Pow128()
    ensures Pow(16, 32) == 0x1_0000_0000_0000_0000_0000_0000_0000_0000
  {
    assert Pow(16, 4) == 0x1_0000;
    assert Pow(16, 8) == 0x1_0000_0000;
    assert Pow(16, 12) == 0x1_0000_0000_0000;
    assert Pow(16, 16) == 0x1_0000_0000_0000_0000;
    assert Pow(16, 20) == 0x1_0000_0000_0000_0000_0000;
    assert Pow(16, 24) == 0x1_0000_0000_0000_0000_0000_0000;
    assert Pow(16, 28) == 0x1_0000_0000_0000_0000_0000_0000_0000;
  }

  lemma PrefixRemoved(prefix: string, rest: string)
    ensures RemovePrefix(prefix + rest, prefix) == rest
  {
    assert (prefix + rest)[..|prefix|] == prefix;
  }

  /** Digits have no second character `x` or `X`. */
  lemma NoPrefix(digits: string)
    requires forall c :: c in digits ==> HexDigit(c)
    ensures RemovePrefix(digits, "0x") == digits == RemovePrefix(digits, "0X")
  {
    assert |digits| >= 2 ==> digits[1] in digits && HexDigit(digits[1]);
  }

  lemma OnlyDigitsLeft(prefix: string, digits: string)
    requires prefix in ["", "0x", "0X", "0x0X"] && forall c :: c in digits ==> HexDigit(c)
    ensures RemovePrefix(RemovePrefix(prefix + digits, "0x"), "0X") == digits
  {
    NoPrefix(digits);
    PrefixRemoved("0x", digits);
    PrefixRemoved("0X", digits);
    PrefixRemoved("0x", "0X" + digits);
    assert "" + digits == digits && "0x0X" + digits == "0x" + ("0X" + digits);
    assert ("0X" + digits)[1] == 'X';
    assert RemovePrefix("0X" + digits, "0x") == "0X" + digits;
    hide RemovePrefix;
  }

  /** What is left of a text after both prefixes, and the prefix that went. */
  lemma PrefixesGone(v: string) returns (prefix: string)
    ensures prefix in ["", "0x", "0X", "0x0X"] && v == prefix + RemovePrefix(RemovePrefix(v, "0x"), "0X")
  {
    var once := RemovePrefix(v, "0x");
    var digits := RemovePrefix(once, "0X");
    var first, second := if StartsWith(v, "0x") then "0x" else "", if StartsWith(once, "0X") then "0X" else "";
    prefix := first + second;
    assert v == first + once && once == second + digits;
    assert first + (second + digits) == prefix + digits;
    assert "" + second == second && first + "" == first && "0x" + "0X" == "0x0X";
  }

  lemma DigitsAreHex(digits: string)
    ensures AllDigits(digits, 16) <==> forall c :: c in digits ==> HexDigit(c)
  {
    assert forall i :: 0 <= i < |digits| ==> digits[i] in digits;
  }

  /** Which vectors there are: a text is one when it is 1 to 32 hexadecimal digits after its
      prefix, and a media sequence number serves as one when it fits into 128 bits. */
  lemma VectorsAre(sequence: int, v: string)
    ensures NormalizeIv(Some(v), sequence).Ok? <==> IsVectorText(v)
    ensures NormalizeIv(None, sequence).Ok?
       <==> 0 <= sequence < 0x1_0000_0000_0000_0000_0000_0000_0000_0000
  {
    hide Pow, Numeral, Value, RemovePrefix, HexDigit, AllDigits;
    Pow128();
    var prefix := PrefixesGone(v);
    var digits := RemovePrefix(RemovePrefix(v, "0x"), "0X");
    DigitsAreHex(digits);
    if IsVectorText(v) {
      var p: string, d: string :| v == p + d && p in ["", "0x", "0X", "0x0X"]
        && 1 <= |d| <= 32 && forall c :: c in d ==> HexDigit(c);
      OnlyDigitsLeft(p, d);
      assert d == digits;
    }
  }

  // ------------------------------------------------------------ printed playlists

  /** What one segment becomes in a local playlist: its key file and vector, and its media file. */
  datatype Entry = Entry(discontinuity: bool, key: Option<(string, string)>, duration: real, file: string)

  function KeyText(key: Option<(string, string)>): string {
    match key
    case None => "#EXT-X-KEY:METHOD=NONE"
    case Some((file, iv)) => "#EXT-X-KEY:METHOD=AES-128,URI=\"" + file + "\",IV=" + iv
  }

  function ExtinfText(duration: real): string { "#EXTINF:" + Fixed6(duration) + "," }

  function MapText(file: string): string { "#EXT-X-MAP:URI=\"" + file + "\"" }

  function EntryLines(e: Entry): seq<string> {
    (if e.discontinuity then ["#EXT-X-DISCONTINUITY"] else []) + [KeyText(e.key), ExtinfText(e.duration), e.file]
  }

  function AllEntryLines(entries: seq<Entry>): seq<string> {
    if entries == [] then []
    else AllEntryLines(entries[..|entries| - 1]) + EntryLines(entries[|entries| - 1])
  }

  function HeaderLines(mapFile: Option<string>): seq<string> {
    ["#EXTM3U", "#EXT-X-VERSION:3"] + (if mapFile.Some? then [MapText(mapFile.value)] else [])
  }

  function PlaylistLines(mapFile: Option<string>, entries: seq<Entry>): seq<string> {
    HeaderLines(mapFile) + AllEntryLines(entries) + ["#EXT-X-ENDLIST"]
  }

  /** The entry of one segment; a missing key file or a bad vector is an error. */
  function EntryFor(segment: Segment, file: string, keyFiles: map<string, string>, resolve: string -> string)
    : Result<Entry, string>
  {
    match segment.key
    case None => Ok(Entry(segment.discontinuity, None, segment.duration, file))
    case Some(key) =>
      var url := resolve(if key.uri.Some? then key.uri.value else "");
      match NormalizeIv(key.iv, segment.sequence)
      case Err(e) => Err(e)
      case Ok(iv) =>
        if url !in keyFiles then Err("KeyError")
        else Ok(Entry(segment.discontinuity, Some((keyFiles[url], iv)), segment.duration, file))
  }

  /** All entries in order, or the failure of one of them. */
  ghost predicate EntriesOf(segments: seq<Segment>, files: seq<string>, keyFiles: map<string, string>,
                            resolve: string -> string, entries: seq<Entry>)
  {
    && |segments| == |files| == |entries|
    && forall i :: 0 <= i < |entries| ==> EntryFor(segments[i], files[i], keyFiles, resolve) == Ok(entries[i])
  }

  ghost predicate Renderable(segments: seq<Segment>, files: seq<string>, keyFiles: map<string, string>,
                             resolve: string -> string)
  {
    |segments| == |files| && forall i :: 0 <= i < |files| ==> EntryFor(segments[i], files[i], keyFiles, resolve).Ok?
  }

  lemma EntryIs(segment: Segment, file: string, keyFiles: map<string, string>, resolve: string -> string)
    ensures var r := EntryFor(segment, file, keyFiles, resolve);
            match segment.key
            case None => r == Ok(Entry(segment.discontinuity, None, segment.duration, file))
            case Some(key) =>
              var url := resolve(if key.uri.Some? then key.uri.value else "");
              var iv := NormalizeIv(key.iv, segment.sequence);
              if iv.Ok? && url in keyFiles then
                r == Ok(Entry(segment.discontinuity, Some((keyFiles[url], iv.value)), segment.duration, file))
              else r.Err?
  {
  }

  lemma NoEntries()
    ensures AllEntryLines([]) == []
  {
  }

  lemma MoreEntries(mapFile: Option<string>, entries: seq<Entry>, e: Entry)
    ensures HeaderLines(mapFile) + AllEntryLines(entries + [e])
         == HeaderLines(mapFile) + AllEntryLines(entries) + EntryLines(e)
  {
    assert (entries + [e])[..|entries|] == entries;
  }

  /** `_render_media_playlist`. `resolve` is `urljoin` against the playlist's own address. */
  method RenderMediaPlaylist(media: seq<Segment>, mapFile: Option<string>, files: seq<string>,
                             keyFiles: map<string, string>, resolve: string -> string)
    returns (r: Result<string, string>, ghost entries: seq<Entry>)
    ensures r.Ok? <==> Renderable(media, files, keyFiles, resolve)
    ensures r.Ok? ==> EntriesOf(media, files, keyFiles, resolve, entries)
                      && r.value == JoinLines(PlaylistLines(mapFile, entries))
  {
    hide NormalizeIv, Fixed6, JoinLines, AllEntryLines, EntryFor;
    var lines := ["#EXTM3U", "#EXT-X-VERSION:3"];
    entries := [];
    if mapFile.Some? {
      lines := lines + ["#EXT-X-MAP:URI=\"" + mapFile.value + "\""];
    }
    if |media| != |files| {
      return Err("zip() argument lengths differ"), [];
    }
    NoEntries();
    for i := 0 to |media|
      invariant |entries| == i
      invariant forall j :: 0 <= j < i ==> EntryFor(media[j], files[j], keyFiles, resolve) == Ok(entries[j])
      invariant lines == HeaderLines(mapFile) + AllEntryLines(entries)
    {
      var segment, file := media[i], files[i];
      ghost var before := lines;
      if segment.discontinuity {
        lines := lines + ["#EXT-X-DISCONTINUITY"];
      }
      ghost var key: Option<(string, string)> := None;
      if segment.key.Some? {
        var url := resolve(if segment.key.value.uri.Some? then segment.key.value.uri.value else "");
        var iv := NormalizeIv(segment.key.value.iv, segment.sequence);
        if iv.Err? || url !in keyFiles {
          EntryIs(segment, file, keyFiles, resolve);
          return Err("bad key"), [];
        }
        lines := lines + ["#EXT-X-KEY:METHOD=AES-128,URI=\"" + keyFiles[url] + "\",IV=" + iv.value];
        key := Some((keyFiles[url], iv.value));
      } else {
        lines := lines + ["#EXT-X-KEY:METHOD=NONE"];
      }
      lines := lines + ["#EXTINF:" + Fixed6(segment.duration) + ","];
      lines := lines + [file];
      ghost var entry := Entry(segment.discontinuity, key, segment.duration, file);
      EntryIs(segment, file, keyFiles, resolve);
      assert lines == before + EntryLines(entry);
      MoreEntries(mapFile, entries, entry);
      entries := entries + [entry];
    }
    lines := lines + ["#EXT-X-ENDLIST"];
    r := Ok(JoinLines(lines));
  }

  /** `_write_run_playlist`: the same for one continuous run, without discontinuity tags. */
  method WriteRunPlaylist(run: seq<Segment>, mapFile: Option<string>, files: seq<string>,
                          keyFiles: map<string, string>, resolve: string -> string)
    returns (r: Result<string, string>, ghost entries: seq<Entry>)
    requires |files| == |run|
    ensures r.Ok? <==> Renderable(run, files, keyFiles, resolve)
    ensures r.Ok? ==> EntriesOf(Joined(run), files, keyFiles, resolve, entries)
                      && r.value == JoinLines(PlaylistLines(mapFile, entries))
  {
    hide NormalizeIv, Fixed6, JoinLines, AllEntryLines, EntryFor;
    var lines := ["#EXTM3U", "#EXT-X-VERSION:3"];
    entries := [];
    if mapFile.Some? {
      lines := lines + ["#EXT-X-MAP:URI=\"" + mapFile.value + "\""];
    }
    NoEntries();
    for i := 0 to |run|
      invariant |entries| == i
      invariant forall j :: 0 <= j < i ==> EntryFor(run[j], files[j], keyFiles, resolve).Ok?
      invariant forall j :: 0 <= j < i ==> EntryFor(Joined(run)[j], files[j], keyFiles, resolve) == Ok(entries[j])
      invariant lines == HeaderLines(mapFile) + AllEntryLines(entries)
    {
      var segment, file := run[i], files[i];
      ghost var before := lines;
      ghost var key: Option<(string, string)> := None;
      EntryIs(segment, file, keyFiles, resolve);
      EntryIs(Joined(run)[i], file, keyFiles, resolve);
      if segment.key.Some? {
        var url := resolve(if segment.key.value.uri.Some? then segment.key.value.uri.value else "");
        var iv := NormalizeIv(segment.key.value.iv, segment.sequence);
        if iv.Err? || url !in keyFiles {
          return Err("bad key"), [];
        }
        lines := lines + ["#EXT-X-KEY:METHOD=AES-128,URI=\"" + keyFiles[url] + "\",IV=" + iv.value];
        key := Some((keyFiles[url], iv.value));
      } else {
        lines := lines + ["#EXT-X-KEY:METHOD=NONE"];
      }
      lines := lines + ["#EXTINF:" + Fixed6(segment.duration) + ",", file];
      ghost var entry := Entry(false, key, segment.duration, file);
      assert lines == before + EntryLines(entry);
      MoreEntries(mapFile, entries, entry);
      entries := entries + [entry];
    }
    lines := lines + ["#EXT-X-ENDLIST"];
    r := Ok(JoinLines(lines));
  }

  /** A run's segments as its playlist shows them: joined without a break. */
  ghost function Joined(run: seq<Segment>): seq<Segment> {
    seq(|run|, i requires 0 <= i < |run| => run[i].(discontinuity := false))
  }

  // ------------------------------------------------------------ local file names

  /** The characters the local names are made of. */
  predicate PlainChar(c: char) { 'a' <= c <= 'z' || '0' <= c <= '9' || c == '.' || c == '-' }

  predicate PlainName(s: string) { s != "" && forall i :: 0 <= i < |s| ==> PlainChar(s[i]) }

  function SegmentFile(index: nat, extension: string): string { "seg" + Numeral(index, 10, 5) + extension }

  function KeyFile(index: nat): string { "key" + Numeral(index, 10, 4) + ".key" }

  const MAP_FILE := "init.mp4"

  const SEGMENT_EXTENSIONS := [".ts", ".m4s", ".mp4", ".aac"]

  lemma SegmentFileIsPlain(index: nat, extension: string)
    requires extension in SEGMENT_EXTENSIONS
    ensures PlainName(SegmentFile(index, extension))
  {
    var digits := Numeral(index, 10, 5);
    assert forall i :: 0 <= i < |digits| ==> PrintedDigit(digits[i], 10);
    assert PlainName(".ts") && PlainName(".m4s") && PlainName(".mp4") && PlainName(".aac") && PlainName("seg");
  }

  lemma KeyFileIsPlain(index: nat)
    ensures PlainName(KeyFile(index))
  {
    var digits := Numeral(index, 10, 4);
    assert forall i :: 0 <= i < |digits| ==> PrintedDigit(digits[i], 10);
    assert PlainName("key") && PlainName(".key");
  }

  lemma KeyFileInjective(i: nat, j: nat)
    requires KeyFile(i) == KeyFile(j)
    ensures i == j
  {
    var a, b := Numeral(i, 10, 4), Numeral(j, 10, 4);
    assert KeyFile(i)[3..|KeyFile(i)| - 4] == a && KeyFile(j)[3..|KeyFile(j)| - 4] == b;
    NumeralValue(i, 10, 4);
    NumeralValue(j, 10, 4);
  }

  predicate Distinguishes(names: map<string, string>) {
    forall u, v :: u in names && v in names && names[u] == names[v] ==> u == v
  }
}

/** From a remote playlist to what ffmpeg gets: key, map and segment files in one directory,
    and a playlist that names them. The local playlist plays what the remote one says. */
module HlsMaterialize {
  import opened Common
  import opened PyText
  import opened HlsPlaylist
  import opened HlsRender
  import opened HlsRoundTrip

  // ------------------------------------------------------------ file names

  /** `_segment_extension`, for the lower-case suffix of the address's path. */
  function Extension(suffix: string): (e: string)
    ensures e in SEGMENT_EXTENSIONS
  {
    if suffix in SEGMENT_EXTENSIONS then suffix else ".ts"
  }

  lemma ExtensionStarts(e: string)
    requires e in SEGMENT_EXTENSIONS
    ensures e != "" && e[0] == '.'
  {
  }

  lemma DigitsBeforeDot(index: nat, e: string)
    requires e != "" && e[0] == '.'
    ensures Find(Numeral(index, 10, 5) + e, '.') == |Numeral(index, 10, 5)|
  {
    var digits := Numeral(index, 10, 5);
    assert forall i :: 0 <= i < |digits| ==> PrintedDigit(digits[i], 10);
    assert '.' !in digits;
    assert digits + e == digits + ['.'] + e[1..];
    FindAfter(digits, '.', e[1..]);
  }

  /** Segments of different numbers get different files. */
  lemma SegmentFileInjective(i: nat, e: string, j: nat, f: string)
    requires e in SEGMENT_EXTENSIONS && f in SEGMENT_EXTENSIONS
    requires SegmentFile(i, e) == SegmentFile(j, f)
    ensures i == j
  {
    hide Numeral, Find;
    var a, b := Numeral(i, 10, 5), Numeral(j, 10, 5);
    assert SegmentFile(i, e)[3..] == a + e && SegmentFile(j, f)[3..] == b + f;
    ExtensionStarts(e);
    ExtensionStarts(f);
    DigitsBeforeDot(i, e);
    DigitsBeforeDot(j, f);
    assert a == (a + e)[..|a|] && b == (b + f)[..|b|];
    NumeralValue(i, 10, 5);
    NumeralValue(j, 10, 5);
  }

  lemma KindsDiffer(i: nat, e: string, k: nat)
    ensures SegmentFile(i, e) != MAP_FILE && SegmentFile(i, e) != KeyFile(k) && KeyFile(k) != MAP_FILE
  {
    hide Numeral;
    assert SegmentFile(i, e)[0] == 's' && KeyFile(k)[0] == 'k' && MAP_FILE[0] == 'i';
  }

  /** `f"{sequence:020d}"`: the sign counts. */
  function Padded(sequence: int): string {
    if sequence < 0 then "-" + Numeral(-sequence, 10, 19) else Numeral(sequence, 10, 20)
  }

  /** The file of a window's segment. */
  function WindowFile(sequence: int, extension: string): string { "seg-" + Padded(sequence) + extension }

  lemma NumeralIsPlain(n: nat, width: nat)
    ensures PlainName(Numeral(n, 10, width))
  {
    var digits := Numeral(n, 10, width);
    assert forall i :: 0 <= i < |digits| ==> PrintedDigit(digits[i], 10);
  }

  lemma WindowFileIsPlain(sequence: int, extension: string)
    requires extension in SEGMENT_EXTENSIONS
    ensures PlainName(WindowFile(sequence, extension))
  {
    hide Numeral;
    NumeralIsPlain(if sequence < 0 then -sequence else sequence, if sequence < 0 then 19 else 20);
    assert PlainName("seg-") && PlainName("-");
    assert PlainName(Padded(sequence));
    assert PlainName(".ts") && PlainName(".m4s") && PlainName(".mp4") && PlainName(".aac");
  }

  /** What the name of a window's file says: `seg-`, then the number in at least 20 characters,
      its sign among them, then the suffix of the address if it is one of four, else `.ts`. */
  lemma WindowFileSays(sequence: int, suffix: string)
    ensures var e := if suffix == ".m4s" || suffix == ".mp4" || suffix == ".aac" then suffix else ".ts";
            var name := WindowFile(sequence, Extension(suffix));
            && |name| >= 24 + |e|
            && (-10_000_000_000_000_000_000 < sequence < 100_000_000_000_000_000_000 ==> |name| == 24 + |e|)
            && name[..4] == "seg-" && name[|name| - |e|..] == e
            && var number := name[4..|name| - |e|];
            && (sequence < 0 ==> number[0] == '-' && AllDigits(number[1..], 10) && Value(number[1..], 10) == -sequence)
            && (sequence >= 0 ==> AllDigits(number, 10) && Value(number, 10) == sequence)
  {
    hide Numeral, Value, Pow;
    var e := Extension(suffix);
    var name := WindowFile(sequence, e);
    assert name[4..|name| - |e|] == Padded(sequence);
    var n, width := if sequence < 0 then -sequence else sequence, if sequence < 0 then 19 else 20;
    NumeralValue(n, 10, width);
    Pow20();
    if n < Pow(10, width) { NumeralWidth(n, 10, width); }
    if sequence < 0 { assert Padded(sequence)[1..] == Numeral(n, 10, 19); }
  }

  lemma Pow20()
    ensures Pow(10, 19) == 10_000_000_000_000_000_000 && Pow(10, 20) == 100_000_000_000_000_000_000
  {
    assert Pow(10, 4) == 10_000;
    assert Pow(10, 8) == 100_000_000;
    assert Pow(10, 12) == 1_000_000_000_000;
    assert Pow(10, 16) == 10_000_000_000_000_000;
  }

  // ------------------------------------------------------------ keys

  /** `_check_key_support`: why a key cannot be used. */
  function KeyRefusal(key: KeyInfo): Option<string> {
    var cipher := Upper(key.cipher);
    if cipher == "SAMPLE-AES" || cipher == "SAMPLE-AES-CTR" then Some("sample_aes_unsupported")
    else if (Truthy(key.keyformat) && Lower(key.keyformat.value) != "identity")
            || (key.uri.Some? && StartsWith(Lower(key.uri.value), "skd://")) then Some("drm_unsupported")
    else if cipher != "AES-128" then Some("encryption_unsupported")
    else if !Truthy(key.uri) then Some("malformed")
    else if key.iv.Some? && NormalizeIv(key.iv, 0).Err? then Some("malformed")
    else None
  }

  /** The key has a format other than `identity`, or an address of a protected stream. */
  predicate Protected(key: KeyInfo) {
    || (key.keyformat.Some? && key.keyformat.value != "" && Lower(key.keyformat.value) != "identity")
    || (key.uri.Some? && |key.uri.value| >= 6 && Lower(key.uri.value)[..6] == "skd://")
  }

  /** Which keys can be used, and the reason given for each that cannot: the method is asked first,
      protection second, and a missing address or a vector that is none last. */
  lemma UsableKeys(key: KeyInfo)
    ensures KeyRefusal(key).None? <==>
              && Upper(key.cipher) == "AES-128" && !Protected(key)
              && key.uri.Some? && key.uri.value != ""
              && (key.iv.Some? ==> IsVectorText(key.iv.value))
    ensures Upper(key.cipher) in ["SAMPLE-AES", "SAMPLE-AES-CTR"] <==> KeyRefusal(key) == Some("sample_aes_unsupported")
    ensures Upper(key.cipher) !in ["SAMPLE-AES", "SAMPLE-AES-CTR"] && Protected(key)
       <==> KeyRefusal(key) == Some("drm_unsupported")
    ensures Upper(key.cipher) !in ["SAMPLE-AES", "SAMPLE-AES-CTR", "AES-128"] && !Protected(key)
       <==> KeyRefusal(key) == Some("encryption_unsupported")
  {
    hide NormalizeIv, IsVectorText, Upper;
    assert "sample_aes_unsupported"[0] == 's' && "encryption_unsupported"[0] == 'e';
    if key.iv.Some? { VectorsAre(0, key.iv.value); }
  }

  /** What the network and the address library answer. Cancelling makes an answer an error. */
  datatype Remote = Remote(
    resolve: string -> string,                    // `urljoin` with the playlist's own address
    secure: string -> bool,                       // the address is https, before and after redirects
    suffix: string -> string,                     // lower-case suffix of the address's path
    key: string -> Result<seq<byte>, string>,
    init: (string, Option<ByteRange>) -> Result<seq<byte>, string>,
    segment: (nat, string, Option<ByteRange>) -> Result<seq<byte>, string>)

  function KeyUrl(key: KeyInfo, resolve: string -> string): string {
    resolve(if key.uri.Some? then key.uri.value else "")
  }

  predicate KeyWorks(key: KeyInfo, remote: Remote) {
    var url := KeyUrl(key, remote.resolve);
    KeyRefusal(key).None? && remote.secure(url) && remote.key(url).Ok? && |remote.key(url).value| == 16
  }

  ghost predicate KeysWork(segments: seq<Segment>, remote: Remote) {
    forall i :: 0 <= i < |segments| && segments[i].key.Some? ==> KeyWorks(segments[i].key.value, remote)
  }

  /** Every key address of the segments has a file of its own that holds what was fetched. */
  ghost predicate KeysOnDisk(segments: seq<Segment>, remote: Remote, names: map<string, string>,
                             disk: map<string, seq<byte>>)
  {
    && (forall i :: 0 <= i < |segments| && segments[i].key.Some? ==> KeyUrl(segments[i].key.value, remote.resolve) in names)
    && (forall u :: u in names ==> names[u] in disk && remote.key(u) == Ok(disk[names[u]]))
    && Distinguishes(names)
  }

  /** The names are those of the first key files. */
  ghost predicate KeyNames(names: map<string, string>, disk: map<string, seq<byte>>) {
    && (forall u :: u in names ==> exists n: nat :: n < |names| && names[u] == KeyFile(n))
    && (forall f :: f in disk ==> exists n: nat :: n < |names| && f == KeyFile(n))
  }

  lemma FreshKeyName(names: map<string, string>, disk: map<string, seq<byte>>)
    requires KeyNames(names, disk)
    ensures forall u :: u in names ==> names[u] != KeyFile(|names|)
    ensures KeyFile(|names|) !in disk
  {
    forall n: nat | n < |names| ensures KeyFile(n) != KeyFile(|names|) {
      if KeyFile(n) == KeyFile(|names|) { KeyFileInjective(n, |names|); }
    }
  }

  /** Every address named so far is secure and gave a key of 16 bytes. */
  ghost predicate NamedWork(names: map<string, string>, remote: Remote) {
    forall u :: u in names ==> remote.secure(u) && remote.key(u).Ok? && |remote.key(u).value| == 16
  }

  lemma OneMoreWorks(segments: seq<Segment>, k: nat, remote: Remote)
    requires k < |segments| && KeysWork(segments[..k], remote)
    requires segments[k].key.Some? ==> KeyWorks(segments[k].key.value, remote)
    ensures KeysWork(segments[..k + 1], remote)
  {
    hide KeyWorks;
    assert segments[..k + 1] == segments[..k] + [segments[k]];
  }

  lemma OneFails(segments: seq<Segment>, k: nat, remote: Remote)
    requires k < |segments| && segments[k].key.Some? && !KeyWorks(segments[k].key.value, remote)
    ensures !KeysWork(segments, remote)
  {
    hide KeyWorks;
  }

  lemma KeyThere(segments: seq<Segment>, k: nat, remote: Remote, names: map<string, string>, disk: map<string, seq<byte>>)
    requires k < |segments| && KeysOnDisk(segments[..k], remote, names, disk)
    requires segments[k].key.Some? ==> KeyUrl(segments[k].key.value, remote.resolve) in names
    ensures KeysOnDisk(segments[..k + 1], remote, names, disk)
  {
    assert segments[..k + 1] == segments[..k] + [segments[k]];
  }

  /** `_fetch_keys`: one file per key address. */
  method FetchKeys(segments: seq<Segment>, remote: Remote)
    returns (r: Result<map<string, string>, string>, disk: map<string, seq<byte>>)
    ensures r.Ok? <==> KeysWork(segments, remote)
    ensures r.Ok? ==> KeysOnDisk(segments, remote, r.value, disk) && KeyNames(r.value, disk)
    ensures r.Ok? ==> forall u :: u in r.value ==> PlainName(r.value[u])
  {
    hide KeyRefusal, KeyFile, KeysWork, KeysOnDisk, KeyNames, KeyUrl, PlainName;
    var names: map<string, string> := map[];
    disk := map[];
    NoKeys(remote);
    for k := 0 to |segments|
      invariant KeysWork(segments[..k], remote) && NamedWork(names, remote)
      invariant KeysOnDisk(segments[..k], remote, names, disk) && KeyNames(names, disk)
    {
      var key := segments[k].key;
      if key.Some? {
        var refusal := KeyRefusal(key.value);
        if refusal.Some? {
          OneFails(segments, k, remote);
          return Err(refusal.value), disk;
        }
        var url := KeyUrl(key.value, remote.resolve);
        if !remote.secure(url) {
          OneFails(segments, k, remote);
          return Err("https_key_required"), disk;
        }
        if url !in names {
          var got := remote.key(url);
          if got.Err? {
            OneFails(segments, k, remote);
            return Err(got.error), disk;
          }
          if |got.value| != 16 {
            OneFails(segments, k, remote);
            return Err("malformed"), disk;
          }
          NewKey(segments[..k], remote, names, disk, url);
          disk := disk[KeyFile(|names|) := got.value];
          names := names[url := KeyFile(|names|)];
        }
      }
      OneMoreWorks(segments, k, remote);
      KeyThere(segments, k, remote, names, disk);
    }
    assert segments[..|segments|] == segments;
    KeyNamesPlain(names, disk);
    r := Ok(names);
  }

  lemma NoKeys(remote: Remote)
    ensures KeysWork([], remote) && KeysOnDisk([], remote, map[], map[]) && KeyNames(map[], map[])
  {
  }

  lemma NewKey(segments: seq<Segment>, remote: Remote, names: map<string, string>, disk: map<string, seq<byte>>, url: string)
    requires KeysOnDisk(segments, remote, names, disk) && KeyNames(names, disk)
    requires url !in names && remote.key(url).Ok?
    ensures var file := KeyFile(|names|);
            && KeysOnDisk(segments, remote, names[url := file], disk[file := remote.key(url).value])
            && KeyNames(names[url := file], disk[file := remote.key(url).value])
  {
    hide KeyFile;
    FreshKeyName(names, disk);
    var more := names[url := KeyFile(|names|)];
    assert |more| == |names| + 1;
    assert more[url] == KeyFile(|names|);
  }

  // ------------------------------------------------------------ the whole playlist

  /** What one segment is in the local playlist: the same break, length to half a millionth,
      vector and, from local files, the same bytes and the same key. */
  ghost predicate PlaysSegment(original: Segment, local: Segment, index: nat, disk: map<string, seq<byte>>, remote: Remote) {
    && local.byterange == None && local.uri in disk
    && remote.segment(index, remote.resolve(original.uri), original.byterange) == Ok(disk[local.uri])
    && SameButFiles(original, local)
    && (original.key.Some? ==>
          && local.key.Some? && local.key.value.uri.Some? && local.key.value.uri.value in disk
          && remote.key(KeyUrl(original.key.value, remote.resolve)) == Ok(disk[local.key.value.uri.value]))
  }

  /** Same break, same length to half a millionth, same encryption and vector. */
  ghost predicate SameButFiles(original: Segment, local: Segment) {
    && local.discontinuity == original.discontinuity
    && -0.0000005 <= local.duration - original.duration <= 0.0000005
    && (local.key.Some? <==> original.key.Some?) && (local.key.Some? ==> local.key.value.cipher == "AES-128")
    && EffectiveIv(local) == EffectiveIv(original)
  }

  ghost predicate Plays(text: string, disk: map<string, seq<byte>>, media: Playlist, remote: Remote)
    requires media.Media?
  {
    Parsed(text).Ok? && Parsed(text).value.Media? &&
    var local := Parsed(text).value;
    && local.hasEndlist && |local.segments| == |media.segments|
    && (local.mapUri.Some? <==> media.mapUri.Some?)
    && (media.mapUri.Some? ==>
          local.mapUri.value in disk && local.mapByterange == None
          && remote.init(remote.resolve(media.mapUri.value), media.mapByterange) == Ok(disk[local.mapUri.value]))
    && forall i :: 0 <= i < |media.segments| ==> PlaysSegment(media.segments[i], local.segments[i], i, disk, remote)
  }

  /** Everything can be fetched, and every vector exists. */
  ghost predicate Available(media: Playlist, remote: Remote)
    requires media.Media?
  {
    && KeysWork(media.segments, remote)
    && (media.mapUri.Some? ==> remote.init(remote.resolve(media.mapUri.value), media.mapByterange).Ok?)
    && (forall i :: 0 <= i < |media.segments| ==> SegmentFetched(media.segments[i], i, remote))
    && VectorsExist(media.segments)
  }

  predicate SegmentFetched(segment: Segment, index: nat, remote: Remote) {
    remote.segment(index, remote.resolve(segment.uri), segment.byterange).Ok?
  }

  /** Sequence numbers that serve as vectors fit into 128 bits. */
  ghost predicate VectorsExist(segments: seq<Segment>) {
    forall i :: 0 <= i < |segments| ==> VectorExists(segments[i])
  }

  predicate VectorExists(segment: Segment) {
    segment.key.Some? && segment.key.value.iv.None? ==> 0 <= segment.sequence < Pow(16, 32)
  }

  lemma VectorOf(segment: Segment, remote: Remote)
    requires segment.key.Some? && KeyWorks(segment.key.value, remote)
    ensures NormalizeIv(segment.key.value.iv, segment.sequence).Ok? <==> VectorExists(segment)
  {
    hide Pow, Upper, Lower, StartsWith;
  }

  lemma CanRender(segments: seq<Segment>, files: seq<string>, names: map<string, string>, disk: map<string, seq<byte>>, remote: Remote)
    requires KeysWork(segments, remote) && KeysOnDisk(segments, remote, names, disk) && |files| == |segments|
    ensures Renderable(segments, files, names, remote.resolve) <==> VectorsExist(segments)
  {
    hide EntryFor, NormalizeIv, VectorExists, KeyWorks;
    forall i | 0 <= i < |segments|
      ensures EntryFor(segments[i], files[i], names, remote.resolve).Ok? <==> VectorExists(segments[i])
    {
      EntryIs(segments[i], files[i], names, remote.resolve);
      if segments[i].key.Some? {
        VectorOf(segments[i], remote);
      } else {
        NoVector(segments[i]);
      }
    }
  }

  lemma NoVector(segment: Segment)
    requires segment.key.None?
    ensures VectorExists(segment)
  {
  }

  /** The segment files written so far: one each, and nothing that was there is touched. */
  ghost predicate FilesOnDisk(segments: seq<Segment>, files: seq<string>, disk: map<string, seq<byte>>, remote: Remote) {
    && |files| == |segments|
    && forall i :: 0 <= i < |files| ==> FileOnDisk(segments[i], files[i], i, disk, remote)
  }

  ghost predicate FileOnDisk(segment: Segment, file: string, index: nat, disk: map<string, seq<byte>>, remote: Remote) {
    && file == SegmentFile(index, Extension(remote.suffix(segment.uri))) && file in disk
    && remote.segment(index, remote.resolve(segment.uri), segment.byterange) == Ok(disk[file])
  }

  lemma NextFile(segments: seq<Segment>, files: seq<string>, disk: map<string, seq<byte>>, remote: Remote, s: Segment)
    requires FilesOnDisk(segments, files, disk, remote) && SegmentFetched(s, |segments|, remote)
    ensures var file := SegmentFile(|segments|, Extension(remote.suffix(s.uri)));
            var more := disk[file := remote.segment(|segments|, remote.resolve(s.uri), s.byterange).value];
            FilesOnDisk(segments + [s], files + [file], more, remote)
  {
    hide SegmentFile, Extension;
    var n := |segments|;
    var file := SegmentFile(n, Extension(remote.suffix(s.uri)));
    var more := disk[file := remote.segment(n, remote.resolve(s.uri), s.byterange).value];
    forall i | 0 <= i < n ensures FileOnDisk(segments[i], files[i], i, more, remote) {
      if files[i] == file {
        SegmentFileInjective(i, Extension(remote.suffix(segments[i].uri)), n, Extension(remote.suffix(s.uri)));
      }
    }
  }

  lemma KeysStay(segments: seq<Segment>, remote: Remote, names: map<string, string>, disk: map<string, seq<byte>>,
                 file: string, content: seq<byte>)
    requires KeysOnDisk(segments, remote, names, disk) && forall u :: u in names ==> names[u] != file
    ensures KeysOnDisk(segments, remote, names, disk[file := content])
  {
  }

  lemma NotAKey(names: map<string, string>, disk: map<string, seq<byte>>, index: nat, e: string)
    requires KeyNames(names, disk)
    ensures forall u :: u in names ==> names[u] != SegmentFile(index, e) && names[u] != MAP_FILE
  {
    hide KeyFile, SegmentFile;
    forall u | u in names ensures names[u] != SegmentFile(index, e) && names[u] != MAP_FILE {
      var n: nat :| n < |names| && names[u] == KeyFile(n);
      KindsDiffer(index, e, n);
    }
  }

  lemma KeyNamesPlain(names: map<string, string>, disk: map<string, seq<byte>>)
    requires KeyNames(names, disk)
    ensures forall u :: u in names ==> PlainName(names[u])
  {
    hide KeyFile, PlainName;
    forall u | u in names ensures PlainName(names[u]) {
      var n: nat :| n < |names| && names[u] == KeyFile(n);
      KeyFileIsPlain(n);
    }
  }

  lemma FilesPlain(segments: seq<Segment>, files: seq<string>, disk: map<string, seq<byte>>, remote: Remote)
    requires FilesOnDisk(segments, files, disk, remote)
    ensures forall i :: 0 <= i < |files| ==> PlainName(files[i])
  {
    hide SegmentFile, PlainName, Extension;
    forall i | 0 <= i < |files| ensures PlainName(files[i]) {
      assert FileOnDisk(segments[i], files[i], i, disk, remote);
      SegmentFileIsPlain(i, Extension(remote.suffix(segments[i].uri)));
    }
  }

  lemma MapFileIsPlain()
    ensures PlainName(MAP_FILE)
  {
  }

  /** `"://" in text`. */
  predicate HasScheme(text: string) { exists i :: 0 <= i < |text| - 2 && text[i] == ':' && text[i + 1] == '/' && text[i + 2] == '/' }

  lemma SchemeIff(text: string)
    ensures HasScheme(text) <==> exists a: string, b: string :: text == a + "://" + b
  {
    if HasScheme(text) {
      var i :| 0 <= i < |text| - 2 && text[i] == ':' && text[i + 1] == '/' && text[i + 2] == '/';
      assert text == text[..i] + "://" + text[i + 3..];
    }
    forall a: string, b: string | text == a + "://" + b
      ensures HasScheme(text)
    {
      var i := |a|;
      assert i < |text| - 2 && text[i] == ':' && text[i + 1] == '/' && text[i + 2] == '/';
    }
  }

  lemma SegmentPlays(original: Segment, local: Segment, index: nat, file: string, names: map<string, string>,
                     disk: map<string, seq<byte>>, remote: Remote)
    requires SameMeaning(original, local, index, file, names, remote.resolve)
    requires FileOnDisk(original, file, index, disk, remote)
    requires forall u :: u in names ==> names[u] in disk && remote.key(u) == Ok(disk[names[u]])
    ensures PlaysSegment(original, local, index, disk, remote)
  {
    hide NormalizeIv, Rounded6, SegmentFile, Extension;
    Rounded6Near(original.duration);
  }

  ghost predicate MapOnDisk(media: Playlist, disk: map<string, seq<byte>>, remote: Remote)
    requires media.Media?
  {
    media.mapUri.Some? ==>
      (MAP_FILE in disk && remote.init(remote.resolve(media.mapUri.value), media.mapByterange) == Ok(disk[MAP_FILE]))
  }

  /** Rewriting and fetching together keep the meaning. */
  lemma LocalPlays(media: Playlist, mapFile: Option<string>, files: seq<string>, names: map<string, string>,
                   disk: map<string, seq<byte>>, remote: Remote, entries: seq<Entry>)
    requires media.Media? && media.segments != []
    requires mapFile == if media.mapUri.Some? then Some(MAP_FILE) else None
    requires MapOnDisk(media, disk, remote)
    requires KeysOnDisk(media.segments, remote, names, disk) && FilesOnDisk(media.segments, files, disk, remote)
    requires forall u :: u in names ==> PlainName(names[u])
    requires EntriesOf(media.segments, files, names, remote.resolve, entries)
    ensures Plays(JoinLines(PlaylistLines(mapFile, entries)), disk, media, remote)
  {
    hide Parsed, SameMeaning, FileOnDisk, PlaysSegment, PlainName, EntryFor, PlaylistLines, JoinLines;
    FilesPlain(media.segments, files, disk, remote);
    MapFileIsPlain();
    RewritingKeepsMeaning(media.segments, mapFile, files, names, remote.resolve, entries);
    var local := Parsed(JoinLines(PlaylistLines(mapFile, entries))).value;
    forall i | 0 <= i < |media.segments|
      ensures PlaysSegment(media.segments[i], local.segments[i], i, disk, remote)
    {
      SegmentPlays(media.segments[i], local.segments[i], i, files[i], names, disk, remote);
    }
  }

  lemma TextIsLocal(media: Playlist, mapFile: Option<string>, files: seq<string>, names: map<string, string>,
                    resolve: string -> string, entries: seq<Entry>)
    requires media.Media? && mapFile.Some? ==> PlainName(mapFile.value)
    requires forall i :: 0 <= i < |files| ==> PlainName(files[i])
    requires forall u :: u in names ==> PlainName(names[u])
    requires media.Media? && EntriesOf(media.segments, files, names, resolve, entries)
    ensures !HasScheme(JoinLines(PlaylistLines(mapFile, entries)))
  {
    hide JoinLines, PlaylistLines, PlainName, EntryFor, GoodEntry;
    EntriesAreGood(media.segments, files, names, resolve, entries);
    RewrittenIsLocal(mapFile, entries);
  }

  /** `_materialize_media_playlist`: fetch the keys, the map and every segment, then write the
      local playlist. It fails only when something cannot be fetched or a sequence number is no
      vector; otherwise the local playlist plays what the remote one says. */
  method Materialize(media: Playlist, remote: Remote)
    returns (r: Result<string, string>, disk: map<string, seq<byte>>)
    requires media.Media?
    ensures r.Ok? <==> Available(media, remote)
    ensures r.Ok? && media.segments != [] ==> Plays(r.value, disk, media, remote)
    ensures r.Ok? ==> !HasScheme(r.value)
  {
    hide KeyWorks, SegmentFile, KeyFile, Extension, PlainName, Plays, EntryFor, JoinLines, PlaylistLines, Pow;
    hide KeysOnDisk, KeyNames, FilesOnDisk, VectorsExist, HasScheme, KeysWork;
    var keys;
    keys, disk := FetchKeys(media.segments, remote);
    if keys.Err? {
      return Err(keys.error), disk;
    }
    var names := keys.value;
    ghost var keyDisk := disk;
    MapFileIsPlain();
    var mapFile: Option<string> := None;
    if media.mapUri.Some? {
      var got := remote.init(remote.resolve(media.mapUri.value), media.mapByterange);
      if got.Err? {
        return Err(got.error), disk;
      }
      NotAKey(names, keyDisk, 0, "");
      KeysStay(media.segments, remote, names, disk, MAP_FILE, got.value);
      disk := disk[MAP_FILE := got.value];
      mapFile := Some(MAP_FILE);
    }
    var files: seq<string> := [];
    NoFiles(disk, remote);
    for index := 0 to |media.segments|
      invariant FilesOnDisk(media.segments[..index], files, disk, remote)
      invariant KeysOnDisk(media.segments, remote, names, disk)
      invariant forall i :: 0 <= i < index ==> SegmentFetched(media.segments[i], i, remote)
      invariant MapOnDisk(media, disk, remote)
    {
      var segment := media.segments[index];
      var file := SegmentFile(index, Extension(remote.suffix(segment.uri)));
      var got := remote.segment(index, remote.resolve(segment.uri), segment.byterange);
      if got.Err? {
        return Err(got.error), disk;
      }
      NextFile(media.segments[..index], files, disk, remote, segment);
      assert media.segments[..index + 1] == media.segments[..index] + [segment];
      NotAKey(names, keyDisk, index, Extension(remote.suffix(segment.uri)));
      KindsDiffer(index, Extension(remote.suffix(segment.uri)), 0);
      KeysStay(media.segments, remote, names, disk, file, got.value);
      disk := disk[file := got.value];
      files := files + [file];
    }
    assert media.segments[..|media.segments|] == media.segments;
    HowManyFiles(media.segments, files, disk, remote);
    CanRender(media.segments, files, names, disk, remote);
    ghost var entries;
    r, entries := RenderMediaPlaylist(media.segments, mapFile, files, names, remote.resolve);
    if r.Ok? {
      FilesPlain(media.segments, files, disk, remote);
      TextIsLocal(media, mapFile, files, names, remote.resolve, entries);
      if HasScheme(r.value) {
        return Err("internal error: rewritten playlist still references a remote URL"), disk;
      }
      if media.segments != [] {
        LocalPlays(media, mapFile, files, names, disk, remote, entries);
      }
    }
  }

  lemma NoFiles(disk: map<string, seq<byte>>, remote: Remote)
    ensures FilesOnDisk([], [], disk, remote)
  {
  }

  lemma HowManyFiles(segments: seq<Segment>, files: seq<string>, disk: map<string, seq<byte>>, remote: Remote)
    requires FilesOnDisk(segments, files, disk, remote)
    ensures |files| == |segments|
  {
  }

  // ------------------------------------------------------------ runs of a live window

  /** The local playlist of a run plays the run's segments in order, without a break. */
  ghost predicate PlaysRun(text: string, run: seq<Segment>, mapFile: Option<string>, files: seq<string>,
                           names: map<string, string>, resolve: string -> string)
  {
    Parsed(text).Ok? && Parsed(text).value.Media? &&
    var local := Parsed(text).value;
    && local.hasEndlist && local.mapUri == mapFile && |local.segments| == |run| == |files|
    && forall i :: 0 <= i < |run| ==>
         && local.segments[i].uri == files[i] && !local.segments[i].discontinuity
         && SameButFiles(run[i].(discontinuity := false), local.segments[i])
         && (run[i].key.Some? ==> KeyUrl(run[i].key.value, resolve) in names
                                  && local.segments[i].key.value.uri == Some(names[KeyUrl(run[i].key.value, resolve)]))
  }

  lemma RunSegmentPlays(original: Segment, local: Segment, index: nat, file: string, names: map<string, string>,
                        resolve: string -> string)
    requires SameMeaning(original.(discontinuity := false), local, index, file, names, resolve)
    ensures local.uri == file && !local.discontinuity && SameButFiles(original.(discontinuity := false), local)
    ensures original.key.Some? ==> KeyUrl(original.key.value, resolve) in names && local.key.Some?
                                   && local.key.value.uri == Some(names[KeyUrl(original.key.value, resolve)])
  {
    hide NormalizeIv, Rounded6;
    Rounded6Near(original.duration);
  }

  /** A run's playlist, written by `WriteRunPlaylist`, plays the run. */
  lemma RunPlays(run: seq<Segment>, mapFile: Option<string>, files: seq<string>, names: map<string, string>,
                 resolve: string -> string, entries: seq<Entry>)
    requires run != [] && EntriesOf(Joined(run), files, names, resolve, entries)
    requires mapFile.Some? ==> PlainName(mapFile.value)
    requires forall i :: 0 <= i < |files| ==> PlainName(files[i])
    requires forall u :: u in names ==> PlainName(names[u])
    ensures PlaysRun(JoinLines(PlaylistLines(mapFile, entries)), run, mapFile, files, names, resolve)
  {
    hide Parsed, SameMeaning, SameButFiles, PlainName, EntryFor, PlaylistLines, JoinLines;
    RewritingKeepsMeaning(Joined(run), mapFile, files, names, resolve, entries);
    var local := Parsed(JoinLines(PlaylistLines(mapFile, entries))).value;
    forall i | 0 <= i < |run|
      ensures local.segments[i].uri == files[i] && !local.segments[i].discontinuity
      ensures SameButFiles(run[i].(discontinuity := false), local.segments[i])
      ensures run[i].key.Some? ==> KeyUrl(run[i].key.value, resolve) in names && local.segments[i].key.Some?
                                   && local.segments[i].key.value.uri == Some(names[KeyUrl(run[i].key.value, resolve)])
    {
      RunSegmentPlays(run[i], local.segments[i], i, files[i], names, resolve);
    }
  }
}

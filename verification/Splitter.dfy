/** Splitting files over the upload limit (upload/splitter.py): videos by a segmenter whose
    parts are checked and cut again, everything else by raw bytes. */
module Splitter {
  import opened Common
  import Credits

  type Bytes = seq<byte>

  const RAW_COPY_BLOCK_SIZE := 8 * 1024 * 1024
  const MAX_RESEGMENT_ATTEMPTS := 2

  // ------------------------------------------------------------ raw chunks

  /** Chunks of exactly `limit` bytes, the last one shorter if need be. */
  function RawParts(content: Bytes, limit: nat): seq<Bytes>
    requires limit > 0
    decreases |content|
  {
    if content == [] then []
    else [content[..Min(limit, |content|)]] + RawParts(content[Min(limit, |content|)..], limit)
  }

  /** What `_split_raw` returns for any limit: 0 reads nothing, a negative one reads it all. */
  function RawSplit(content: Bytes, limit: int): seq<Bytes> {
    if limit > 0 then RawParts(content, limit)
    else if limit == 0 || content == [] then [] else [content]
  }

  /** `src.read(n)` with `left` bytes to go. */
  function ReadSize(n: int, left: nat): nat { if n < 0 then left else Min(n, left) }

  /** Where a part that begins at `at` ends. */
  function PartEnd(size: nat, at: nat, limit: int): nat
    requires at <= size
  {
    if limit >= 0 then Min(at + limit, size) else size
  }

  /** One part, read in blocks of at most 8 MiB whatever the limit. */
  method ReadPart(content: Bytes, at: nat, limit: int) returns (part: Bytes)
    requires at <= |content|
    ensures part == content[at..PartEnd(|content|, at, limit)]
  {
    part := content[at..at + ReadSize(Min(RAW_COPY_BLOCK_SIZE, limit), |content| - at)];
    while part != [] && |part| < limit
      invariant |part| <= PartEnd(|content|, at, limit) - at && part == content[at..at + |part|]
      invariant part == [] ==> PartEnd(|content|, at, limit) == at
      invariant limit < 0 ==> at + |part| == |content|
      decreases |content| - at - |part|
    {
      var here := at + |part|;
      var block := content[here..here + ReadSize(Min(RAW_COPY_BLOCK_SIZE, limit - |part|), |content| - here)];
      if block == [] {
        break;
      }
      assert content[at..here] + block == content[at..here + |block|];
      part := part + block;
    }
  }

  /** The chunks cut off before `at`. */
  ghost predicate SplitSoFar(content: Bytes, limit: int, at: nat, parts: seq<Bytes>) {
    at <= |content| &&
    if limit > 0 then parts + RawParts(content[at..], limit) == RawParts(content, limit)
    else if limit == 0 then at == 0 && parts == []
    else (at == 0 && parts == []) || (at == |content| && parts == RawSplit(content, limit))
  }

  lemma NothingSplit(content: Bytes, limit: int)
    ensures SplitSoFar(content, limit, 0, [])
  {
    assert content[0..] == content;
    if limit > 0 {
      assert [] + RawParts(content, limit) == RawParts(content, limit);
    }
  }

  lemma OneMorePart(content: Bytes, limit: int, at: nat, parts: seq<Bytes>, part: Bytes)
    requires SplitSoFar(content, limit, at, parts) && part != [] && part == content[at..PartEnd(|content|, at, limit)]
    ensures SplitSoFar(content, limit, at + |part|, parts + [part])
  {
    if limit > 0 {
      OneChunk(content, at, at + |part|, limit);
      assert parts + ([part] + RawParts(content[at + |part|..], limit)) == parts + [part] + RawParts(content[at + |part|..], limit);
    } else {
      assert content[0..|content|] == content;
    }
  }

  lemma NoMoreParts(content: Bytes, limit: int, at: nat, parts: seq<Bytes>)
    requires SplitSoFar(content, limit, at, parts) && content[at..PartEnd(|content|, at, limit)] == []
    ensures parts == RawSplit(content, limit)
  {
    assert PartEnd(|content|, at, limit) == at;
    assert limit > 0 ==> content[at..] == [];
  }

  method SplitRaw(content: Bytes, limit: int) returns (parts: seq<Bytes>)
    ensures parts == RawSplit(content, limit)
  {
    hide SplitSoFar, RawSplit, PartEnd;
    parts := [];
    var at := 0;
    NothingSplit(content, limit);
    while true
      invariant at <= |content| && SplitSoFar(content, limit, at, parts)
      decreases |content| - at
    {
      var part := ReadPart(content, at, limit);
      if part == [] {
        break;
      }
      OneMorePart(content, limit, at, parts, part);
      InsideContent(content, limit, at + |part|, parts + [part]);
      parts := parts + [part];
      at := at + |part|;
    }
    NoMoreParts(content, limit, at, parts);
  }

  lemma InsideContent(content: Bytes, limit: int, at: nat, parts: seq<Bytes>)
    requires SplitSoFar(content, limit, at, parts)
    ensures at <= |content|
  {
  }

  lemma OneChunk(content: Bytes, start: nat, at: nat, limit: nat)
    requires limit > 0 && start < at <= |content|
    requires at - start == limit || (at - start < limit && at == |content|)
    ensures RawParts(content[start..], limit) == [content[start..at]] + RawParts(content[at..], limit)
  {
    var rest := content[start..];
    assert rest[..Min(limit, |rest|)] == content[start..at];
    assert rest[Min(limit, |rest|)..] == content[at..];
  }

  predicate FullChunks(parts: seq<Bytes>, limit: nat) {
    forall k :: 0 <= k < |parts| ==> 0 < |parts[k]| <= limit && (k < |parts| - 1 ==> |parts[k]| == limit)
  }

  lemma {:induction false} RawPartsAre(content: Bytes, limit: nat)
    requires limit > 0
    ensures Flatten(RawParts(content, limit)) == content && FullChunks(RawParts(content, limit), limit)
    decreases |content|
  {
    if content != [] {
      var n := Min(limit, |content|);
      var first, rest := [content[..n]], RawParts(content[n..], limit);
      RawPartsAre(content[n..], limit);
      FlattenConcat(first, rest);
      assert first[..0] == [] && Flatten(first) == [] + content[..n];
      assert n < limit ==> content[n..] == [];
    }
  }

  /** Raw chunks put together again are the file, and all but the last are exactly as large as
      allowed; only a limit of 0 loses the content. */
  lemma RawSplitKeepsTheFile(content: Bytes, limit: int)
    ensures Flatten(RawSplit(content, limit)) == content <==> limit != 0 || content == []
    ensures limit > 0 ==> FullChunks(RawSplit(content, limit), limit)
    ensures limit > 0 && content != [] ==> RawSplit(content, limit) != []
  {
    if limit > 0 {
      RawPartsAre(content, limit);
    } else if limit < 0 && content != [] {
      assert [content][..0] == [];
      assert Flatten([content]) == [] + content;
    }
  }

  // ------------------------------------------------------------ re-segmenting

  /** The segmenter: a video and the attempts still left (which fix the margin) give the
      parts ffmpeg made, or None when it raised. */
  type Segmenter = (Bytes, nat) -> Option<seq<Bytes>>

  /** A part that was kept as it is, or one that was cut by raw bytes. */
  datatype Piece = Kept(file: Bytes) | Chunked(file: Bytes, chunks: seq<Bytes>)

  function PieceParts(p: Piece): seq<Bytes> { if p.Kept? then [p.file] else p.chunks }

  function PartsOf(ps: seq<Piece>): seq<Bytes> {
    if ps == [] then [] else PartsOf(ps[..|ps| - 1]) + PieceParts(ps[|ps| - 1])
  }

  lemma {:induction false} PartsOfConcat(a: seq<Piece>, b: seq<Piece>)
    ensures PartsOf(a + b) == PartsOf(a) + PartsOf(b)
  {
    if b == [] {
      assert a + b == a;
    } else {
      assert (a + b)[..|a + b| - 1] == a + b[..|b| - 1];
      PartsOfConcat(a, b[..|b| - 1]);
    }
  }

  function FixPart(part: Bytes, limit: nat, attempts: nat, segment: Segmenter): Option<seq<Piece>>
    decreases attempts, 0
  {
    if |part| <= limit then Some([Kept(part)])
    else if attempts > 0 then
      var again := segment(part, attempts);
      if again.None? then None else Fix(again.value, limit, attempts - 1, segment)
    else Some([Chunked(part, RawSplit(part, limit))])
  }

  /** `_ensure_parts_within_limit` with the origin of each part. */
  function Fix(parts: seq<Bytes>, limit: nat, attempts: nat, segment: Segmenter): Option<seq<Piece>>
    decreases attempts, |parts| + 1
  {
    if parts == [] then Some([])
    else
      var init := Fix(parts[..|parts| - 1], limit, attempts, segment);
      var last := FixPart(parts[|parts| - 1], limit, attempts, segment);
      if init.None? || last.None? then None else Some(init.value + last.value)
  }

  method EnsurePartsWithinLimit(parts: seq<Bytes>, limit: nat, attempts: nat, segment: Segmenter)
    returns (fixed: Option<seq<Bytes>>)
    ensures fixed.Some? <==> Fix(parts, limit, attempts, segment).Some?
    ensures fixed.Some? ==> fixed.value == PartsOf(Fix(parts, limit, attempts, segment).value)
    decreases attempts
  {
    var all: seq<Bytes> := [];
    ghost var pieces: seq<Piece> := [];
    for i := 0 to |parts|
      invariant Fix(parts[..i], limit, attempts, segment) == Some(pieces) && all == PartsOf(pieces)
    {
      var part := parts[i];
      assert parts[..i + 1][..i] == parts[..i];
      ghost var here := FixPart(part, limit, attempts, segment);
      if |part| <= limit {
        all := all + [part];
        assert [Kept(part)][..0] == [];
        assert PartsOf([Kept(part)]) == [] + [part];
      } else if attempts > 0 {
        var resegmented := segment(part, attempts);
        if resegmented.None? {
          Unfixable(parts, i, limit, attempts, segment);
          return None;
        }
        var sub := EnsurePartsWithinLimit(resegmented.value, limit, attempts - 1, segment);
        if sub.None? {
          Unfixable(parts, i, limit, attempts, segment);
          return None;
        }
        all := all + sub.value;
      } else {
        var chunks := SplitRaw(part, limit);
        all := all + chunks;
        assert [Chunked(part, chunks)][..0] == [];
        assert PartsOf([Chunked(part, chunks)]) == [] + chunks;
      }
      PartsOfConcat(pieces, here.value);
      pieces := pieces + here.value;
    }
    assert parts[..|parts|] == parts;
    fixed := Some(all);
  }

  lemma {:induction false} Unfixable(parts: seq<Bytes>, i: nat, limit: nat, attempts: nat, segment: Segmenter)
    requires i < |parts| && FixPart(parts[i], limit, attempts, segment).None?
    ensures Fix(parts, limit, attempts, segment).None?
    decreases |parts|
  {
    if i < |parts| - 1 {
      Unfixable(parts[..|parts| - 1], i, limit, attempts, segment);
    }
  }

  // ------------------------------------------------------------ what the parts hold

  /** What a file plays: any reading of its bytes as a sequence of frames. */
  type Playing = Bytes -> seq<int>

  function Played(files: seq<Bytes>, plays: Playing): seq<int> {
    if files == [] then [] else Played(files[..|files| - 1], plays) + plays(files[|files| - 1])
  }

  /** Chunks are not playable on their own; together they are the file they came from. */
  function PlayedPieces(ps: seq<Piece>, plays: Playing): seq<int> {
    if ps == [] then [] else PlayedPieces(ps[..|ps| - 1], plays) + plays(ps[|ps| - 1].file)
  }

  lemma {:induction false} PlayedPiecesConcat(a: seq<Piece>, b: seq<Piece>, plays: Playing)
    ensures PlayedPieces(a + b, plays) == PlayedPieces(a, plays) + PlayedPieces(b, plays)
  {
    if b == [] {
      assert a + b == a;
    } else {
      assert (a + b)[..|a + b| - 1] == a + b[..|b| - 1];
      PlayedPiecesConcat(a, b[..|b| - 1], plays);
    }
  }

  /** The segmenter cuts between frames and keeps their order. */
  ghost predicate KeepsOrder(segment: Segmenter, plays: Playing) {
    forall file, attempts ::
      segment(file, attempts).Some? ==> Played(segment(file, attempts).value, plays) == plays(file)
  }

  predicate GoodPiece(p: Piece, limit: nat) {
    match p
    case Kept(file) => |file| <= limit
    case Chunked(file, chunks) => Flatten(chunks) == file && FullChunks(chunks, limit)
  }

  ghost predicate GoodPieces(ps: seq<Piece>, limit: nat) { forall k :: 0 <= k < |ps| ==> GoodPiece(ps[k], limit) }

  lemma {:induction false} FixPartIsGood(part: Bytes, limit: nat, attempts: nat, segment: Segmenter, plays: Playing)
    requires limit > 0 && KeepsOrder(segment, plays) && FixPart(part, limit, attempts, segment).Some?
    ensures var ps := FixPart(part, limit, attempts, segment).value;
            PlayedPieces(ps, plays) == plays(part) && GoodPieces(ps, limit)
    decreases attempts, 0
  {
    if |part| > limit && attempts > 0 {
      FixIsGood(segment(part, attempts).value, limit, attempts - 1, segment, plays);
    } else {
      RawSplitKeepsTheFile(part, limit);
      var p := FixPart(part, limit, attempts, segment).value;
      assert p[..0] == [];
      assert PlayedPieces(p, plays) == [] + plays(part);
    }
  }

  lemma {:induction false} FixIsGood(parts: seq<Bytes>, limit: nat, attempts: nat, segment: Segmenter, plays: Playing)
    requires limit > 0 && KeepsOrder(segment, plays) && Fix(parts, limit, attempts, segment).Some?
    ensures var ps := Fix(parts, limit, attempts, segment).value;
            PlayedPieces(ps, plays) == Played(parts, plays) && GoodPieces(ps, limit)
    decreases attempts, |parts| + 1
  {
    if parts != [] {
      var init, last := parts[..|parts| - 1], parts[|parts| - 1];
      FixIsGood(init, limit, attempts, segment, plays);
      FixPartIsGood(last, limit, attempts, segment, plays);
      PlayedPiecesConcat(Fix(init, limit, attempts, segment).value, FixPart(last, limit, attempts, segment).value, plays);
    }
  }

  lemma {:induction false} GoodPartsFit(ps: seq<Piece>, limit: nat)
    requires GoodPieces(ps, limit)
    ensures forall k :: 0 <= k < |PartsOf(ps)| ==> |PartsOf(ps)[k]| <= limit
  {
    if ps != [] {
      var last := |ps| - 1;
      assert GoodPieces(ps[..last], limit);
      GoodPartsFit(ps[..last], limit);
      assert GoodPiece(ps[last], limit);
    }
  }

  // ------------------------------------------------------------ when the segmenter is asked

  /** The file was too large, could be cut, and the other is one of its parts. */
  ghost predicate CutFrom(file: Bytes, part: Bytes, limit: nat, left: int, segment: Segmenter) {
    |file| > limit && left > 0 && segment(file, left).Some? && part in segment(file, left).value
  }

  /** Files each of which was cut from the one before. */
  ghost predicate Cuts(chain: seq<Bytes>, limit: nat, attempts: nat, segment: Segmenter) {
    forall i :: 0 <= i < |chain| - 1 ==> CutFrom(chain[i], chain[i + 1], limit, attempts - i, segment)
  }

  /** The last file of some chain is too large, may be cut, and cannot be. */
  ghost predicate Stuck(part: Bytes, limit: nat, attempts: nat, segment: Segmenter) {
    exists chain: seq<Bytes> :: chain != [] && Cuts(chain, limit, attempts, segment) && chain[0] == part && StuckAt(chain, limit, attempts, segment)
  }

  ghost predicate StuckAt(chain: seq<Bytes>, limit: nat, attempts: nat, segment: Segmenter)
    requires chain != []
  {
    var last, n := chain[|chain| - 1], |chain| - 1;
    |last| > limit && n < attempts && segment(last, attempts - n).None?
  }

  /** A piece stands at the end of a chain: kept if it fits, cut by raw bytes only when it is too
      large and as many cuts as allowed lie behind it. */
  ghost predicate EndOfCuts(p: Piece, part: Bytes, limit: nat, attempts: nat, segment: Segmenter) {
    exists chain: seq<Bytes> :: chain != [] && Cuts(chain, limit, attempts, segment) && chain[0] == part && chain[|chain| - 1] == p.file
                    && if p.Kept? then |p.file| <= limit else |p.file| > limit && |chain| == attempts + 1
  }

  lemma ChainBehind(chain: seq<Bytes>, limit: nat, attempts: nat, segment: Segmenter)
    requires Cuts(chain, limit, attempts, segment) && |chain| > 1
    ensures attempts > 0 && Cuts(chain[1..], limit, attempts - 1, segment)
    ensures |chain[0]| > limit && segment(chain[0], attempts).Some? && chain[1] in segment(chain[0], attempts).value
    ensures StuckAt(chain, limit, attempts, segment) ==> StuckAt(chain[1..], limit, attempts - 1, segment)
  {
    assert CutFrom(chain[0], chain[1], limit, attempts, segment);
    forall i | 0 <= i < |chain[1..]| - 1 ensures CutFrom(chain[1..][i], chain[1..][i + 1], limit, attempts - 1 - i, segment) {
      assert CutFrom(chain[i + 1], chain[i + 2], limit, attempts - (i + 1), segment);
    }
  }

  lemma ChainBefore(part: Bytes, chain: seq<Bytes>, limit: nat, attempts: nat, segment: Segmenter)
    requires attempts > 0 && |part| > limit && segment(part, attempts).Some?
    requires chain != [] && Cuts(chain, limit, attempts - 1, segment) && chain[0] in segment(part, attempts).value
    ensures Cuts([part] + chain, limit, attempts, segment)
    ensures StuckAt(chain, limit, attempts - 1, segment) ==> StuckAt([part] + chain, limit, attempts, segment)
  {
    var longer := [part] + chain;
    forall i | 0 <= i < |longer| - 1 ensures CutFrom(longer[i], longer[i + 1], limit, attempts - i, segment) {
      assert i > 0 ==> CutFrom(chain[i - 1], chain[i], limit, attempts - 1 - (i - 1), segment);
    }
  }

  /** One part is fixed exactly when no chain from it is stuck, and then its pieces are ends of
      such chains. */
  lemma {:induction false} PartIsFixedIff(part: Bytes, limit: nat, attempts: nat, segment: Segmenter)
    ensures FixPart(part, limit, attempts, segment).Some? <==> !Stuck(part, limit, attempts, segment)
    ensures FixPart(part, limit, attempts, segment).Some? ==>
              forall p :: p in FixPart(part, limit, attempts, segment).value ==> EndOfCuts(p, part, limit, attempts, segment)
    decreases attempts, 0
  {
    hide RawSplit, Cuts, StuckAt, Fix;
    OnlyItself(part, limit, attempts, segment);
    if |part| > limit && attempts > 0 && segment(part, attempts).Some? {
      var parts := segment(part, attempts).value;
      AllAreFixedIff(parts, limit, attempts - 1, segment);
      StuckBelow(part, parts, limit, attempts, segment);
      if FixPart(part, limit, attempts, segment).Some? {
        forall p | p in FixPart(part, limit, attempts, segment).value
          ensures EndOfCuts(p, part, limit, attempts, segment)
        {
          PieceBelow(p, part, parts, limit, attempts, segment);
        }
      }
    } else {
      StuckHere(part, limit, attempts, segment);
    }
  }

  lemma OnlyItself(part: Bytes, limit: nat, attempts: nat, segment: Segmenter)
    ensures Cuts([part], limit, attempts, segment)
    ensures StuckAt([part], limit, attempts, segment) <==>
              |part| > limit && attempts > 0 && segment(part, attempts).None?
  {
  }

  lemma StuckHere(part: Bytes, limit: nat, attempts: nat, segment: Segmenter)
    requires |part| <= limit || attempts == 0 || segment(part, attempts).None?
    ensures Stuck(part, limit, attempts, segment) <==> |part| > limit && attempts > 0
  {
    hide Cuts, StuckAt;
    OnlyItself(part, limit, attempts, segment);
    if chain :| chain != [] && Cuts(chain, limit, attempts, segment) && chain[0] == part && StuckAt(chain, limit, attempts, segment) {
      if |chain| > 1 {
        ChainBehind(chain, limit, attempts, segment);
      } else {
        assert chain == [part];
      }
    }
  }

  lemma StuckBelow(part: Bytes, parts: seq<Bytes>, limit: nat, attempts: nat, segment: Segmenter)
    requires |part| > limit && attempts > 0 && segment(part, attempts) == Some(parts)
    ensures Stuck(part, limit, attempts, segment) <==> exists q :: q in parts && Stuck(q, limit, attempts - 1, segment)
  {
    hide Cuts, StuckAt;
    OnlyItself(part, limit, attempts, segment);
    if chain :| chain != [] && Cuts(chain, limit, attempts, segment) && chain[0] == part && StuckAt(chain, limit, attempts, segment) {
      assert |chain| == 1 ==> chain == [part];
      if |chain| > 1 {
        ChainBehind(chain, limit, attempts, segment);
        assert chain[1..][0] == chain[1] && Stuck(chain[1], limit, attempts - 1, segment);
      }
    }
    if q :| q in parts && Stuck(q, limit, attempts - 1, segment) {
      var chain :| chain != [] && Cuts(chain, limit, attempts - 1, segment) && chain[0] == q && StuckAt(chain, limit, attempts - 1, segment);
      ChainBefore(part, chain, limit, attempts, segment);
      assert ([part] + chain)[0] == part;
    }
  }

  lemma PieceBelow(p: Piece, part: Bytes, parts: seq<Bytes>, limit: nat, attempts: nat, segment: Segmenter)
    requires |part| > limit && attempts > 0 && segment(part, attempts) == Some(parts)
    requires exists q :: q in parts && EndOfCuts(p, q, limit, attempts - 1, segment)
    ensures EndOfCuts(p, part, limit, attempts, segment)
  {
    hide Cuts, StuckAt;
    var q :| q in parts && EndOfCuts(p, q, limit, attempts - 1, segment);
    var chain :| chain != [] && Cuts(chain, limit, attempts - 1, segment) && chain[0] == q && chain[|chain| - 1] == p.file
                 && if p.Kept? then |p.file| <= limit else |p.file| > limit && |chain| == attempts;
    ChainBefore(part, chain, limit, attempts, segment);
    var longer := [part] + chain;
    assert longer[0] == part && longer[|longer| - 1] == p.file;
  }

  lemma {:induction false} AllAreFixedIff(parts: seq<Bytes>, limit: nat, attempts: nat, segment: Segmenter)
    ensures Fix(parts, limit, attempts, segment).Some? <==> forall q :: q in parts ==> !Stuck(q, limit, attempts, segment)
    ensures Fix(parts, limit, attempts, segment).Some? ==>
              forall p :: p in Fix(parts, limit, attempts, segment).value ==>
                exists q :: q in parts && EndOfCuts(p, q, limit, attempts, segment)
    decreases attempts, |parts| + 1
  {
    if parts != [] {
      hide Stuck, EndOfCuts, FixPart;
      var init, last := parts[..|parts| - 1], parts[|parts| - 1];
      AllAreFixedIff(init, limit, attempts, segment);
      PartIsFixedIff(last, limit, attempts, segment);
      assert parts == init + [last];
    }
  }

  // ------------------------------------------------------------ a whole file

  /** `split_file`; None when the segmenter raised. */
  function SplitFile(content: Bytes, isVideo: bool, limit: nat, segment: Segmenter): Option<seq<Piece>> {
    if |content| <= limit then Some([Kept(content)])
    else if isVideo then
      var first := segment(content, MAX_RESEGMENT_ATTEMPTS + 1);
      if first.None? then None else Fix(first.value, limit, MAX_RESEGMENT_ATTEMPTS, segment)
    else Some([Chunked(content, RawSplit(content, limit))])
  }

  /** For every segmenter that keeps the order of the frames: each part fits the limit, and
      the parts, read in order, hold exactly what the file held. */
  lemma SplitFileIsGood(content: Bytes, isVideo: bool, limit: nat, segment: Segmenter, plays: Playing)
    requires limit > 0 && KeepsOrder(segment, plays) && SplitFile(content, isVideo, limit, segment).Some?
    ensures var ps := SplitFile(content, isVideo, limit, segment).value;
            && PlayedPieces(ps, plays) == plays(content) && GoodPieces(ps, limit)
            && (forall k :: 0 <= k < |PartsOf(ps)| ==> |PartsOf(ps)[k]| <= limit)
  {
    var ps := SplitFile(content, isVideo, limit, segment).value;
    if |content| > limit && isVideo {
      FixIsGood(segment(content, MAX_RESEGMENT_ATTEMPTS + 1).value, limit, MAX_RESEGMENT_ATTEMPTS, segment, plays);
    } else {
      RawSplitKeepsTheFile(content, limit);
      assert ps[..0] == [];
      assert PlayedPieces(ps, plays) == [] + plays(content);
    }
    GoodPartsFit(ps, limit);
  }

  /** When `split_file` succeeds, and which files it cuts by raw bytes. A video over the limit is
      cut by the segmenter, its parts again if they are over the limit, and theirs once more. It
      fails exactly when a file reached in this way cannot be cut; only files that three cuts left
      too large are cut by raw bytes. */
  lemma SplitFileIff(content: Bytes, isVideo: bool, limit: nat, segment: Segmenter)
    ensures SplitFile(content, isVideo, limit, segment).Some? <==> isVideo ==> !Stuck(content, limit, 3, segment)
    ensures SplitFile(content, isVideo, limit, segment).Some? && isVideo ==>
              forall p :: p in SplitFile(content, isVideo, limit, segment).value ==> EndOfCuts(p, content, limit, 3, segment)
    ensures !isVideo && |content| > limit ==>
              SplitFile(content, isVideo, limit, segment) == Some([Chunked(content, RawSplit(content, limit))])
  {
    hide Stuck, EndOfCuts, RawSplit;
    PartIsFixedIff(content, limit, 3, segment);
    assert isVideo ==> SplitFile(content, isVideo, limit, segment) == FixPart(content, limit, 3, segment);
  }

  function SizesOf(parts: seq<Bytes>): seq<nat> {
    seq(|parts|, k requires 0 <= k < |parts| => |parts[k]|)
  }

  lemma {:induction false} SizesAddUp(parts: seq<Bytes>)
    ensures Credits.Total(SizesOf(parts)) == |Flatten(parts)|
  {
    if parts != [] {
      SizesAddUp(parts[..|parts| - 1]);
      assert SizesOf(parts)[..|parts| - 1] == SizesOf(parts[..|parts| - 1]);
    }
  }

  /** A file cut by raw bytes costs what it would cost in one piece. */
  lemma RawSplitCostsTheSame(content: Bytes, limit: nat, mbPerCredit: nat)
    requires limit > 0 && content != [] && mbPerCredit > 0
    ensures Credits.Price(SizesOf(RawSplit(content, limit)), mbPerCredit) == Credits.Price([|content|], mbPerCredit)
  {
    RawSplitKeepsTheFile(content, limit);
    SizesAddUp(RawSplit(content, limit));
    assert [|content|][..0] == [];
    assert Credits.Total([|content|]) == 0 + |content|;
  }
}

/** Downloading a live window: from the playlist to one file, with every answer that can stop
    it, and how the delivered length relates to the window. */
module HlsDownload {
  import opened Common
  import opened PyText
  import opened HlsPlaylist
  import opened HlsReading
  import opened HlsRender
  import opened HlsMaterialize
  import opened HlsWindow

  // ------------------------------------------------------------ fetching the segments

  /** What a fetch makes of a segment: a file named by its number, or a gap. */
  function ItemFor(segment: Segment, there: bool, suffix: string -> string): Item {
    Item(segment, if there then Some(WindowFile(segment.sequence, Extension(suffix(segment.uri)))) else None)
  }

  /** The item a number got: fetched for one of the segments with that number. */
  ghost predicate FetchedAs(segments: seq<Segment>, q: int, item: Item, fetch: Segment -> Result<bool, string>,
                            suffix: string -> string)
  {
    exists j :: 0 <= j < |segments| && segments[j].sequence == q && FetchedFor(segments[j], item, fetch, suffix)
  }

  predicate FetchedFor(segment: Segment, item: Item, fetch: Segment -> Result<bool, string>, suffix: string -> string) {
    && fetch(segment).Ok? && item.segment == segment
    && item.path == if fetch(segment).value then Some(WindowFile(segment.sequence, Extension(suffix(segment.uri)))) else None
  }

  /** Some segment whose number is not known yet cannot be fetched. */
  ghost predicate SomeFails(segments: seq<Segment>, known: set<int>, fetch: Segment -> Result<bool, string>) {
    exists i :: 0 <= i < |segments| && segments[i].sequence !in known && fetch(segments[i]).Err?
  }

  /** `_download_segment_batch`: fetches what is not there yet, by workers that finish in any
      order; a 404 is a gap, any other failure aborts. */
  method DownloadBatch(segments: seq<Segment>, fetch: Segment -> Result<bool, string>, suffix: string -> string,
                       existing: map<int, Item>)
    returns (r: Result<map<int, Item>, string>)
    ensures r.Ok? <==> !SomeFails(segments, existing.Keys, fetch)
    ensures r.Ok? ==> existing.Keys <= r.value.Keys && forall q :: q in existing ==> r.value[q] == existing[q]
    ensures r.Ok? ==> forall i :: 0 <= i < |segments| ==> segments[i].sequence in r.value
    ensures r.Ok? ==> forall q :: q in r.value && q !in existing ==> FetchedAs(segments, q, r.value[q], fetch, suffix)
  {
    hide WindowFile, Extension;
    var todo := set i | 0 <= i < |segments| && segments[i].sequence !in existing;
    var all := existing;
    while todo != {}
      invariant forall i :: i in todo ==> 0 <= i < |segments| && segments[i].sequence !in existing
      invariant existing.Keys <= all.Keys && forall q :: q in existing ==> all[q] == existing[q]
      invariant forall i :: 0 <= i < |segments| && i !in todo ==> segments[i].sequence in all
      invariant forall i :: 0 <= i < |segments| && i !in todo && segments[i].sequence !in existing ==> fetch(segments[i]).Ok?
      invariant forall q :: q in all && q !in existing ==> FetchedAs(segments, q, all[q], fetch, suffix)
    {
      var i :| i in todo;
      todo := todo - {i};
      var got := fetch(segments[i]);
      if got.Err? {
        return Err(got.error);
      }
      var path: Option<string> := None;
      if got.value {
        path := Some(WindowFile(segments[i].sequence, Extension(suffix(segments[i].uri))));
      }
      var item := Item(segments[i], path);
      assert FetchedFor(segments[i], item, fetch, suffix);
      all := all[segments[i].sequence := item];
    }
    r := Ok(all);
  }

  /** `[s for s in refreshed if s.sequence > last]`. */
  function Later(refreshed: seq<Segment>, last: int): seq<Segment> {
    if refreshed == [] then []
    else
      var n := |refreshed| - 1;
      Later(refreshed[..n], last) + (if refreshed[n].sequence > last then [refreshed[n]] else [])
  }

  lemma {:induction false} LaterIncreases(refreshed: seq<Segment>, last: int)
    requires Increasing(refreshed)
    ensures Increasing(Later(refreshed, last))
    ensures forall s :: s in Later(refreshed, last) <==> s in refreshed && s.sequence > last
  {
    if refreshed != [] {
      var n := |refreshed| - 1;
      LaterIncreases(refreshed[..n], last);
      assert refreshed == refreshed[..n] + [refreshed[n]];
      forall s | s in Later(refreshed[..n], last) ensures s.sequence < refreshed[n].sequence {
        assert s in refreshed[..n];
      }
    }
  }

  /** Every selected segment with the file its fetch gave, or as a gap. */
  function ItemsBy(selected: seq<Segment>, fetch: Segment -> Result<bool, string>, suffix: string -> string): seq<Item> {
    seq(|selected|, i requires 0 <= i < |selected| =>
      ItemFor(selected[i], fetch(selected[i]).Ok? && fetch(selected[i]).value, suffix))
  }

  function Numbers(segments: seq<Segment>): set<int> { set s | s in segments :: s.sequence }

  /** The items of the selected segments: those with one number share one item. */
  ghost predicate Fetched(selected: seq<Segment>, items: seq<Item>, fetch: Segment -> Result<bool, string>,
                          suffix: string -> string)
  {
    && |items| == |selected|
    && (forall i :: 0 <= i < |selected| ==> FetchedAs(selected, selected[i].sequence, items[i], fetch, suffix))
    && forall i, k :: 0 <= i < k < |selected| && selected[i].sequence == selected[k].sequence ==> items[i] == items[k]
  }

  /** With rising numbers every segment has its own item. */
  lemma FetchedInOrder(selected: seq<Segment>, items: seq<Item>, fetch: Segment -> Result<bool, string>, suffix: string -> string)
    requires Fetched(selected, items, fetch, suffix) && Increasing(selected)
    ensures items == ItemsBy(selected, fetch, suffix)
  {
    hide ItemFor, FetchedAs, Increasing;
    forall i | 0 <= i < |selected| ensures items[i] == ItemsBy(selected, fetch, suffix)[i] {
      OwnItem(selected, i, items[i], fetch, suffix);
    }
  }

  lemma OwnItem(selected: seq<Segment>, i: nat, item: Item, fetch: Segment -> Result<bool, string>, suffix: string -> string)
    requires i < |selected| && Increasing(selected) && FetchedAs(selected, selected[i].sequence, item, fetch, suffix)
    ensures fetch(selected[i]).Ok? && item == ItemFor(selected[i], fetch(selected[i]).value, suffix)
  {
    hide WindowFile, Extension;
    var j :| 0 <= j < |selected| && selected[j].sequence == selected[i].sequence && FetchedFor(selected[j], item, fetch, suffix);
    assert j == i;
  }

  lemma FetchedInWhole(chosen: seq<Segment>, later: seq<Segment>, q: int, item: Item, fetch: Segment -> Result<bool, string>,
                       suffix: string -> string)
    requires FetchedAs(chosen, q, item, fetch, suffix) || FetchedAs(later, q, item, fetch, suffix)
    ensures FetchedAs(chosen + later, q, item, fetch, suffix)
  {
    hide FetchedFor;
    var all := chosen + later;
    if j :| 0 <= j < |chosen| && chosen[j].sequence == q && FetchedFor(chosen[j], item, fetch, suffix) {
      assert all[j] == chosen[j];
    } else {
      var k :| 0 <= k < |later| && later[k].sequence == q && FetchedFor(later[k], item, fetch, suffix);
      assert all[|chosen| + k] == later[k];
    }
  }

  /** The items in the order of the segments, after both batches. */
  method Gather(chosen: seq<Segment>, later: seq<Segment>, fetch: Segment -> Result<bool, string>, suffix: string -> string,
                downloaded: map<int, Item>)
    returns (r: Result<seq<Item>, string>)
    requires downloaded.Keys == Numbers(chosen)
    requires forall q :: q in downloaded ==> FetchedAs(chosen, q, downloaded[q], fetch, suffix)
    ensures r.Ok? <==> !SomeFails(later, Numbers(chosen), fetch)
    ensures r.Ok? ==> Fetched(chosen + later, r.value, fetch, suffix)
  {
    hide FetchedAs;
    var all := chosen + later;
    var known := downloaded;
    if |later| > 0 {
      var more := DownloadBatch(later, fetch, suffix, downloaded);
      if more.Err? {
        return Err(more.error);
      }
      known := more.value;
    }
    r := Ok(seq(|all|, i requires 0 <= i < |all| =>
      if all[i].sequence in known then known[all[i].sequence] else Item(all[i], None)));
    forall i | 0 <= i < |all|
      ensures all[i].sequence in known && FetchedAs(all, all[i].sequence, known[all[i].sequence], fetch, suffix)
    {
      assert all[i] == if i < |chosen| then chosen[i] else later[i - |chosen|];
      assert i < |chosen| ==> chosen[i] in chosen;
      FetchedInWhole(chosen, later, all[i].sequence, known[all[i].sequence], fetch, suffix);
    }
  }

  // ------------------------------------------------------------ the runs' playlists

  function PathsOf(run: seq<Item>): seq<string>
    requires forall x :: x in run ==> x.path.Some?
  {
    seq(|run|, i requires 0 <= i < |run| => run[i].path.value)
  }

  /** The keys of the window are fetched, each into a file of its own. */
  ghost predicate KeysReady(selected: seq<Segment>, names: map<string, string>, disk: map<string, seq<byte>>, remote: Remote) {
    && KeysWork(selected, remote) && KeysOnDisk(selected, remote, names, disk)
    && forall u :: u in names ==> PlainName(names[u])
  }

  /** A run of items that are there, taken from the selected segments. */
  ghost predicate RunFrom(run: seq<Item>, items: seq<Item>) {
    run != [] && forall x :: x in run ==> x in items && x.path.Some?
  }

  ghost predicate PathsPlain(items: seq<Item>) {
    forall x :: x in items && x.path.Some? ==> PlainName(x.path.value)
  }

  lemma FetchedPaths(selected: seq<Segment>, items: seq<Item>, fetch: Segment -> Result<bool, string>, suffix: string -> string)
    requires Fetched(selected, items, fetch, suffix)
    ensures PathsPlain(items) && forall x :: x in items ==> x.segment in selected
  {
    hide PlainName, FetchedAs;
    forall x | x in items ensures x.segment in selected && (x.path.Some? ==> PlainName(x.path.value)) {
      var i :| 0 <= i < |items| && items[i] == x;
      FetchedPath(selected, selected[i].sequence, x, fetch, suffix);
    }
  }

  lemma FetchedPath(segments: seq<Segment>, q: int, item: Item, fetch: Segment -> Result<bool, string>, suffix: string -> string)
    requires FetchedAs(segments, q, item, fetch, suffix)
    ensures item.segment in segments && (item.path.Some? ==> PlainName(item.path.value))
  {
    hide PlainName, WindowFile, Extension;
    var j :| 0 <= j < |segments| && segments[j].sequence == q && FetchedFor(segments[j], item, fetch, suffix);
    WindowFileIsPlain(segments[j].sequence, Extension(suffix(segments[j].uri)));
  }

  lemma KeysOfItems(selected: seq<Segment>, items: seq<Item>, names: map<string, string>, disk: map<string, seq<byte>>, remote: Remote)
    requires KeysReady(selected, names, disk, remote) && forall x :: x in items ==> x.segment in selected
    ensures KeysReady(SegmentsOf(items), names, disk, remote)
  {
    hide KeyWorks, KeyUrl, PlainName;
    var segments := SegmentsOf(items);
    forall i | 0 <= i < |segments| ensures segments[i] in selected {
      assert items[i] in items;
    }
  }

  lemma KeysOfRun(run: seq<Item>, items: seq<Item>, names: map<string, string>, disk: map<string, seq<byte>>, remote: Remote)
    requires RunFrom(run, items) && KeysReady(SegmentsOf(items), names, disk, remote)
    ensures KeysReady(SegmentsOf(run), names, disk, remote)
  {
    hide KeyWorks, KeyUrl, PlainName;
    var selected, segments := SegmentsOf(items), SegmentsOf(run);
    forall i | 0 <= i < |segments| ensures segments[i] in selected {
      assert run[i] in items;
      var j :| 0 <= j < |items| && items[j] == run[i];
      assert selected[j] == segments[i];
    }
  }

  /** What ffmpeg gets for one run plays the run. */
  ghost predicate PlaysItems(text: string, run: seq<Item>, mapFile: Option<string>, names: map<string, string>,
                             resolve: string -> string)
  {
    && (forall x :: x in run ==> x.path.Some?)
    && PlaysRun(text, SegmentsOf(run), mapFile, PathsOf(run), names, resolve)
  }

  /** The playlist of one run. It fails only where a sequence number is no vector. */
  method WriteRun(run: seq<Item>, ghost items: seq<Item>, mapFile: Option<string>, names: map<string, string>,
                  ghost disk: map<string, seq<byte>>, remote: Remote)
    returns (r: Result<string, string>)
    requires RunFrom(run, items) && PathsPlain(items) && KeysReady(SegmentsOf(items), names, disk, remote)
    requires mapFile.Some? ==> PlainName(mapFile.value)
    ensures r.Ok? <==> VectorsExist(SegmentsOf(run))
    ensures r.Ok? ==> PlaysItems(r.value, run, mapFile, names, remote.resolve)
  {
    hide KeyWorks, PlainName, EntryFor, JoinLines, PlaylistLines, PlaysRun, KeysWork, KeysOnDisk, VectorsExist, Renderable;
    KeysOfRun(run, items, names, disk, remote);
    var segments := SegmentsOf(run);
    var files := PathsOf(run);
    CanRender(segments, files, names, disk, remote);
    ghost var entries;
    r, entries := WriteRunPlaylist(segments, mapFile, files, names, remote.resolve);
    if r.Ok? {
      forall i | 0 <= i < |files| ensures PlainName(files[i]) {
        assert run[i] in items && files[i] == run[i].path.value;
      }
      RunPlays(segments, mapFile, files, names, remote.resolve, entries);
    }
  }

  /** Each run's playlist is written and remuxed before the next one's. */
  method WriteRuns(runs: seq<seq<Item>>, ghost items: seq<Item>, mapFile: Option<string>, names: map<string, string>,
                   ghost disk: map<string, seq<byte>>, remote: Remote, remux: nat -> bool)
    returns (r: Result<seq<string>, string>)
    requires forall k :: 0 <= k < |runs| ==> RunFrom(runs[k], items)
    requires PathsPlain(items) && KeysReady(SegmentsOf(items), names, disk, remote)
    requires mapFile.Some? ==> PlainName(mapFile.value)
    ensures r.Ok? <==> forall k :: 0 <= k < |runs| ==> VectorsExist(SegmentsOf(runs[k])) && remux(k)
    ensures r.Ok? ==> |r.value| == |runs|
    ensures r.Ok? ==> forall k :: 0 <= k < |runs| ==> PlaysItems(r.value[k], runs[k], mapFile, names, remote.resolve)
  {
    hide VectorsExist, PlaysItems, RunFrom, PathsPlain, KeysReady, PlainName;
    var texts: seq<string> := [];
    for k := 0 to |runs|
      invariant |texts| == k
      invariant forall j :: 0 <= j < k ==> VectorsExist(SegmentsOf(runs[j])) && remux(j)
      invariant forall j :: 0 <= j < k ==> PlaysItems(texts[j], runs[j], mapFile, names, remote.resolve)
    {
      var text := WriteRun(runs[k], items, mapFile, names, disk, remote);
      if text.Err? {
        return Err(text.error);
      }
      if !remux(k) {
        return Err("ffmpeg remux failed");
      }
      texts := texts + [text.value];
    }
    r := Ok(texts);
  }

  lemma {:induction false} InFlatten<T>(runs: seq<seq<T>>, x: T)
    ensures x in Flatten(runs) <==> exists k :: 0 <= k < |runs| && x in runs[k]
  {
    if runs != [] {
      InFlatten(runs[..|runs| - 1], x);
      assert x in runs[|runs| - 1] || x !in runs[|runs| - 1];
    }
  }

  lemma {:induction false} InPresent(items: seq<Item>, x: Item)
    ensures x in Present(items) <==> x in items && x.path.Some?
  {
    if items != [] {
      InPresent(items[..|items| - 1], x);
      assert items == items[..|items| - 1] + [items[|items| - 1]];
    }
  }

  ghost predicate PresentVectors(items: seq<Item>) {
    forall x :: x in Present(items) ==> VectorExists(x.segment)
  }

  lemma RunsFrom(runs: seq<seq<Item>>, starts: seq<nat>, items: seq<Item>)
    requires MaximalRuns(items, runs, starts)
    ensures forall k :: 0 <= k < |runs| ==> RunFrom(runs[k], items)
  {
    forall k | 0 <= k < |runs| ensures RunFrom(runs[k], items) {
      RunIsContinuous(items, runs[k], starts[k]);
    }
  }

  lemma VectorsOfRuns(runs: seq<seq<Item>>, items: seq<Item>)
    requires Flatten(runs) == Present(items)
    ensures PresentVectors(items) <==> forall k :: 0 <= k < |runs| ==> VectorsExist(SegmentsOf(runs[k]))
  {
    hide VectorExists, Flatten, Present;
    if PresentVectors(items) {
      forall k | 0 <= k < |runs| ensures VectorsExist(SegmentsOf(runs[k])) {
        forall i | 0 <= i < |runs[k]| ensures VectorExists(runs[k][i].segment) {
          InFlatten(runs, runs[k][i]);
        }
      }
    }
    if forall k :: 0 <= k < |runs| ==> VectorsExist(SegmentsOf(runs[k])) {
      forall x | x in Present(items) ensures VectorExists(x.segment) {
        InFlatten(runs, x);
        var k :| 0 <= k < |runs| && x in runs[k];
        var i :| 0 <= i < |runs[k]| && runs[k][i] == x;
        assert SegmentsOf(runs[k])[i] == x.segment;
      }
    }
  }

  // ------------------------------------------------------------ the end of a download

  datatype Metadata = Metadata(selected: real, delivered: real, gapCount: nat, missing: real)

  ghost predicate NoNegativeDuration(items: seq<Item>) { forall x :: x in items ==> x.segment.duration >= 0.0 }

  /** What a successful window download means: the lengths it reports, and how far the file's may
      be from them. Seconds selected are seconds delivered plus seconds missing exactly when the
      items are as long as the selected segments, which they are if each has its own number. */
  ghost predicate GoodDownload(selected: seq<Segment>, items: seq<Item>, m: Metadata, actual: real) {
    && m.selected == Total(selected) && m.delivered == Total(SegmentsOf(Present(items)))
    && m.missing == Total(SegmentsOf(Gaps(items))) && m.gapCount == |Gaps(items)|
    && (m.selected == m.delivered + m.missing <==> Total(selected) == Total(SegmentsOf(items)))
    && m.gapCount <= 3
    && 0.95 * m.delivered <= actual <= 1.05 * m.delivered
    && (NoNegativeDuration(items) && SegmentsOf(items) == selected ==> 0.95 * 0.99 * m.selected <= actual)
  }

  lemma RatioBound(d: real, x: real, c: real)
    requires x > 0.0 && d / x <= c
    ensures d <= c * x
  {
    assert d == (d / x) * x;
  }

  /** How far the probed length is from the delivered one. */
  function Drift(actual: real, delivered: real): real {
    if actual >= delivered then actual - delivered else delivered - actual
  }

  lemma DriftBounds(selected: real, delivered: real, missing: real, actual: real)
    requires delivered > 0.0
    requires selected > 0.0 ==> missing <= selected * MAX_GAP_DURATION_RATIO
    requires Drift(actual, delivered) / delivered <= MAX_DRIFT
    ensures 0.95 * delivered <= actual <= 1.05 * delivered
    ensures selected == delivered + missing && missing >= 0.0 ==> 0.95 * 0.99 * selected <= actual
  {
    RatioBound(Drift(actual, delivered), delivered, 0.05);
    assert selected == delivered + missing && missing >= 0.0 ==> delivered >= 0.99 * selected;
  }

  lemma {:induction false} TotalNotNegative(segments: seq<Segment>)
    requires forall s :: s in segments ==> s.duration >= 0.0
    ensures Total(segments) >= 0.0
  {
    if segments != [] {
      TotalNotNegative(segments[1..]);
    }
  }

  lemma {:induction false} GapsAreItems(items: seq<Item>)
    ensures forall x :: x in Gaps(items) ==> x in items
  {
    if items != [] {
      GapsAreItems(items[..|items| - 1]);
    }
  }

  lemma MissingNotNegative(items: seq<Item>)
    ensures NoNegativeDuration(items) ==> Total(SegmentsOf(Gaps(items))) >= 0.0
  {
    hide Gaps, Total;
    GapsAreItems(items);
    if NoNegativeDuration(items) {
      TotalNotNegative(SegmentsOf(Gaps(items)));
    }
  }

  lemma AllowedGaps(gapCount: nat, totalCount: nat, missing: real, selected: real, maxGapRatio: real)
    requires GapsAllowed(gapCount, totalCount, missing, selected, maxGapRatio)
    ensures gapCount <= 3 && (selected > 0.0 ==> missing <= selected * MAX_GAP_DURATION_RATIO)
  {
  }

  lemma NothingPresent(runs: seq<seq<Item>>, items: seq<Item>)
    requires runs == [] && Flatten(runs) == Present(items)
    ensures Total(SegmentsOf(Present(items))) == 0.0
  {
  }

  /** How the programs and the file system answer at the end: ffmpeg for each run and for joining
      them, ffprobe, the last look at the cancel token, and the moves. */
  datatype Tools = Tools(remux: nat -> bool, concat: bool, probe: Option<real>, cancelled: bool, moves: bool)

  /** What is asked of the items: few enough gaps, and vectors for every segment that is there. */
  ghost predicate ItemsWork(selected: seq<Segment>, items: seq<Item>, maxGapRatio: real) {
    && GapsAllowed(|Gaps(items)|, |items|, Total(SegmentsOf(Gaps(items))), Total(selected), maxGapRatio)
    && PresentVectors(items)
  }

  /** What is asked of the programs. */
  ghost predicate ToolsWork(runCount: nat, delivered: real, tools: Tools) {
    && (forall k: nat :: k < runCount ==> tools.remux(k)) && (runCount > 1 ==> tools.concat)
    && delivered > 0.0 && tools.probe.Some? && Drift(tools.probe.value, delivered) / delivered <= MAX_DRIFT
    && !tools.cancelled && tools.moves
  }

  ghost predicate Deliverable(selected: seq<Segment>, items: seq<Item>, maxGapRatio: real, tools: Tools) {
    ItemsWork(selected, items, maxGapRatio) && ToolsWork(RunCount(items), Total(SegmentsOf(Present(items))), tools)
  }

  /** Joins the runs' outputs and compares the length with what was delivered. */
  method Conclude(runCount: nat, delivered: real, tools: Tools) returns (r: Option<string>)
    requires forall k: nat :: k < runCount ==> tools.remux(k)
    ensures r.None? <==> ToolsWork(runCount, delivered, tools)
  {
    hide Drift;
    if runCount > 1 && !tools.concat {
      return Some("ffmpeg remux failed");
    }
    if tools.probe.None? {
      return Some("could not verify HLS output duration");
    }
    if delivered <= 0.0 || Drift(tools.probe.value, delivered) / delivered > MAX_DRIFT {
      return Some("concatenated HLS duration drift exceeds 5 percent");
    }
    if tools.cancelled {
      return Some("cancelled");
    }
    if !tools.moves {
      return Some("OSError");
    }
    return None;
  }

  lemma DownloadIsGood(selected: seq<Segment>, items: seq<Item>, maxGapRatio: real, tools: Tools)
    requires Deliverable(selected, items, maxGapRatio, tools)
    ensures var gaps := Gaps(items);
            GoodDownload(selected, items, Metadata(Total(selected), Total(SegmentsOf(Present(items))), |gaps|,
                                                   Total(SegmentsOf(gaps))), tools.probe.value)
  {
    hide Total, Present, Gaps, GapsAllowed, Drift, RunCount, NoNegativeDuration, PresentVectors;
    var gaps := Gaps(items);
    var delivered, missing := Total(SegmentsOf(Present(items))), Total(SegmentsOf(gaps));
    DurationsAddUp(items);
    MissingNotNegative(items);
    AllowedGaps(|gaps|, |items|, missing, Total(selected), maxGapRatio);
    DriftBounds(Total(selected), delivered, missing, tools.probe.value);
  }

  /** The end of `download_hls_window`: check the gaps, cut into runs, write and remux each run,
      join them, and check the result. */
  method FinishWindow(selected: seq<Segment>, items: seq<Item>, mapFile: Option<string>, names: map<string, string>,
                      ghost disk: map<string, seq<byte>>, remote: Remote, maxGapRatio: real, tools: Tools)
    returns (r: Result<Metadata, string>, runs: seq<seq<Item>>, texts: seq<string>)
    requires PathsPlain(items) && KeysReady(SegmentsOf(items), names, disk, remote)
    requires mapFile.Some? ==> PlainName(mapFile.value)
    ensures r.Ok? <==> Deliverable(selected, items, maxGapRatio, tools)
    ensures r.Ok? ==> tools.probe.Some? && GoodDownload(selected, items, r.value, tools.probe.value)
    ensures r.Ok? ==> runs != [] && Flatten(runs) == Present(items)
    ensures r.Ok? ==> |texts| == |runs|
    ensures r.Ok? ==> forall k :: 0 <= k < |runs| ==> PlaysItems(texts[k], runs[k], mapFile, names, remote.resolve)
  {
    hide Total, Present, Gaps, Flatten, MaximalRuns, GapsAllowed, PathsPlain, KeysReady, PlainName, RunFrom, PlaysItems;
    hide PresentVectors, VectorsExist, RunCount, GoodDownload, Drift, SegmentsOf;
    runs, texts := [], [];
    var selectedDuration := Total(selected);
    var gaps := Gaps(items);
    var missing := Total(SegmentsOf(gaps));
    if !GapsAllowed(|gaps|, |items|, missing, selectedDuration, maxGapRatio) {
      return Err("window_expired"), runs, texts;
    }
    ghost var starts;
    runs, starts := ContinuousRuns(items);
    RunsFrom(runs, starts, items);
    VectorsOfRuns(runs, items);
    if |runs| == 0 {
      NothingPresent(runs, items);
      return Err("window_too_short"), runs, texts;
    }
    var written := WriteRuns(runs, items, mapFile, names, disk, remote, tools.remux);
    if written.Err? {
      return Err(written.error), runs, texts;
    }
    texts := written.value;
    var delivered := Total(SegmentsOf(Present(items)));
    var failure := Conclude(|runs|, delivered, tools);
    if failure.Some? {
      return Err(failure.value), runs, texts;
    }
    DownloadIsGood(selected, items, maxGapRatio, tools);
    r := Ok(Metadata(selectedDuration, delivered, |gaps|, missing));
  }

  /** Two segments with one number and different lengths: the items of both may be the first one's
      file, and then the seconds delivered are not those selected. */
  lemma RepeatedNumber(a: Segment, b: Segment, fetch: Segment -> Result<bool, string>, suffix: string -> string)
    requires a.sequence == b.sequence && a.duration != b.duration && fetch(a) == Ok(true) == fetch(b)
    ensures var x := ItemFor(a, true, suffix);
            && Fetched([a, b], [x, x], fetch, suffix) && Gaps([x, x]) == []
            && Total(SegmentsOf(Present([x, x]))) != Total([a, b])
  {
    hide WindowFile, Extension, Total, Present, Gaps;
    var x := ItemFor(a, true, suffix);
    assert FetchedFor([a, b][0], x, fetch, suffix);
    BothThere(x);
    assert SegmentsOf([x, x]) == [a, a];
    TotalOfTwo(a, a);
    TotalOfTwo(a, b);
  }

  lemma BothThere(x: Item)
    requires x.path.Some?
    ensures Gaps([x, x]) == [] && Present([x, x]) == [x, x]
  {
    assert [x, x][..1] == [x] && [x][..0] == [];
    assert Gaps([x]) == [] && Present([x]) == [x];
  }

  lemma TotalOfTwo(a: Segment, b: Segment)
    ensures Total([a, b]) == a.duration + b.duration
  {
    assert [a, b][1..] == [b] && [b][1..] == [];
    assert Total([b]) == b.duration;
  }

  // ------------------------------------------------------------ one window download

  /** The first `n` segments are the window of the first playlist, the rest what the
      second one published after it. */
  ghost predicate WindowThenLater(media: seq<Segment>, seconds: Option<real>, refreshed: seq<Segment>,
                                  selected: seq<Segment>, n: nat)
  {
    && 0 < n <= |selected|
    && (if seconds.Some? then ShortestTail(media, seconds.value, selected[..n]) else selected[..n] == media)
    && selected[n..] == Later(refreshed, selected[n - 1].sequence)
  }

  lemma JoinLater(chosen: seq<Segment>, later: seq<Segment>)
    requires chosen != [] && Increasing(chosen) && Increasing(later)
    requires forall s :: s in later ==> s.sequence > chosen[|chosen| - 1].sequence
    ensures Increasing(chosen + later)
  {
  }

  lemma TailIncreases(media: seq<Segment>, n: nat)
    requires Increasing(media) && n <= |media|
    ensures Increasing(media[|media| - n..])
  {
  }

  /** Everything a window download asks for and gets. */
  datatype Answers = Answers(
    first: Result<Playlist, string>,              // the playlist, read when the download begins
    second: Result<Playlist, string>,             // the same, read when the window's segments are there
    remote: Remote,                               // seen from the first playlist's address
    remoteAgain: Remote,                          // seen from the second one's, which a redirect may change
    fetch: Segment -> Result<bool, string>,       // a segment's file: there, gone, or an error
    audio: bool,                                  // a separate audio rendition, if one is declared, was downloaded
    tools: Tools)

  predicate KeyAdmitted(segment: Segment, remote: Remote) {
    segment.key.Some? ==> KeyRefusal(segment.key.value).None? && remote.secure(KeyUrl(segment.key.value, remote.resolve))
  }

  /** The playlist is live, its keys are of a kind the code knows, and there is a window to take. */
  ghost predicate Begins(first: Result<Playlist, string>, remote: Remote, seconds: Option<real>) {
    && first.Ok? && first.value.Media? && !first.value.hasEndlist
    && (forall i :: 0 <= i < |first.value.segments| ==> KeyAdmitted(first.value.segments[i], remote))
    && first.value.segments != [] && (seconds.Some? ==> seconds.value > 0.0)
  }

  /** The base of the key addresses: the second playlist's as soon as it has something new. */
  function KeyBase(answers: Answers, selected: seq<Segment>, n: nat): Remote {
    if n < |selected| then answers.remoteAgain else answers.remote
  }

  predicate MapWorks(media: Playlist, remote: Remote)
    requires media.Media?
  {
    media.mapUri.Some? ==> remote.init(remote.resolve(media.mapUri.value), media.mapByterange).Ok?
  }

  /** No fetch fails; numbers that are known from the window are not fetched again. */
  ghost predicate BothFetched(chosen: seq<Segment>, later: seq<Segment>, fetch: Segment -> Result<bool, string>) {
    !SomeFails(chosen, {}, fetch) && !SomeFails(later, Numbers(chosen), fetch)
  }

  /** Everything the selected segments need can be fetched. */
  ghost predicate FetchWorks(answers: Answers, selected: seq<Segment>, n: nat)
    requires answers.first.Ok? && answers.first.value.Media?
  {
    && n <= |selected| && MapWorks(answers.first.value, answers.remote)
    && BothFetched(selected[..n], selected[n..], answers.fetch) && answers.audio
    && KeysWork(selected, KeyBase(answers, selected, n))
  }

  method CheckBegin(media: Playlist, remote: Remote) returns (r: Option<string>)
    requires media.Media?
    ensures r.None? <==> !media.hasEndlist
                         && forall i :: 0 <= i < |media.segments| ==> KeyAdmitted(media.segments[i], remote)
  {
    hide KeyRefusal;
    if media.hasEndlist {
      return Some("playlist is not live");
    }
    for i := 0 to |media.segments|
      invariant forall j :: 0 <= j < i && media.segments[j].key.Some? ==> KeyRefusal(media.segments[j].key.value).None?
    {
      var key := media.segments[i].key;
      if key.Some? && KeyRefusal(key.value).Some? {
        assert !KeyAdmitted(media.segments[i], remote);
        return Some(KeyRefusal(key.value).value);
      }
    }
    for i := 0 to |media.segments|
      invariant forall j :: 0 <= j < i ==> KeyAdmitted(media.segments[j], remote)
    {
      var key := media.segments[i].key;
      if key.Some? && !remote.secure(KeyUrl(key.value, remote.resolve)) {
        assert !KeyAdmitted(media.segments[i], remote);
        return Some("https_key_required");
      }
    }
    return None;
  }

  /** The window, or why there is none. */
  ghost predicate Chosen(media: seq<Segment>, seconds: Option<real>, chosen: seq<Segment>) {
    chosen != [] && if seconds.Some? then ShortestTail(media, seconds.value, chosen) else chosen == media
  }

  method Choose(first: Result<Playlist, string>, remote: Remote, seconds: Option<real>)
    returns (r: Result<seq<Segment>, string>)
    requires first.Ok? ==> first.value.Media?
    ensures r.Ok? <==> Begins(first, remote, seconds)
    ensures r.Ok? ==> Chosen(first.value.segments, seconds, r.value)
  {
    hide KeyAdmitted, TailTotal;
    if first.Err? {
      return Err(first.error);
    }
    var refused := CheckBegin(first.value, remote);
    if refused.Some? {
      return Err(refused.value);
    }
    r := SelectWindow(first.value.segments, seconds);
    if r.Ok? && |r.value| == 0 {
      r := Err("window_too_short");
    }
  }

  /** What the download takes: the window, then what the second playlist has after it. */
  ghost predicate Takes(answers: Answers, seconds: Option<real>, selected: seq<Segment>, n: nat) {
    && answers.first.Ok? && answers.first.value.Media? && answers.second.Ok? && answers.second.value.Media?
    && WindowThenLater(answers.first.value.segments, seconds, answers.second.value.segments, selected, n)
  }

  /** What is read is a media playlist: `_resolve_window_playlist` follows a master to one. */
  ghost predicate Readings(answers: Answers) {
    (answers.first.Ok? ==> answers.first.value.Media?) && (answers.second.Ok? ==> answers.second.value.Media?)
  }

  /** Both readings number their segments upwards, as those of `NumbersIncrease` do. */
  ghost predicate BothIncrease(answers: Answers) {
    && (answers.first.Ok? && answers.first.value.Media? ==> Increasing(answers.first.value.segments))
    && (answers.second.Ok? && answers.second.value.Media? ==> Increasing(answers.second.value.segments))
  }

  /** The window and what the second playlist has after it. */
  function Whole(answers: Answers, chosen: seq<Segment>): seq<Segment>
    requires chosen != []
  {
    chosen + (if answers.second.Ok? && answers.second.value.Media? then
                Later(answers.second.value.segments, chosen[|chosen| - 1].sequence)
              else [])
  }

  lemma WholeIncreases(answers: Answers, chosen: seq<Segment>)
    requires BothIncrease(answers) && chosen != [] && Increasing(chosen)
    ensures Increasing(Whole(answers, chosen))
  {
    hide Later;
    if answers.second.Ok? && answers.second.value.Media? {
      var last := chosen[|chosen| - 1].sequence;
      LaterIncreases(answers.second.value.segments, last);
      JoinLater(chosen, Later(answers.second.value.segments, last));
    }
  }

  lemma TakesThem(answers: Answers, seconds: Option<real>, chosen: seq<Segment>)
    requires Readings(answers) && answers.first.Ok? && Chosen(answers.first.value.segments, seconds, chosen)
    ensures |chosen| <= |Whole(answers, chosen)| && Whole(answers, chosen)[..|chosen|] == chosen
    ensures BothIncrease(answers) ==> Increasing(Whole(answers, chosen))
    ensures answers.second.Ok? ==> Takes(answers, seconds, Whole(answers, chosen), |chosen|)
  {
    hide Later, Total, Increasing, TailTotal;
    var media, n := answers.first.value.segments, |chosen|;
    assert n <= |media| && chosen == media[|media| - n..];
    if BothIncrease(answers) {
      TailIncreases(media, n);
      WholeIncreases(answers, chosen);
    }
    if answers.second.Ok? {
      var later := Later(answers.second.value.segments, chosen[n - 1].sequence);
      assert Whole(answers, chosen)[n..] == later;
    }
  }

  /** Everything after the window was chosen. */
  ghost predicate ChosenWorks(answers: Answers, selected: seq<Segment>, n: nat, items: seq<Item>, maxGapRatio: real)
    requires answers.first.Ok? && answers.first.value.Media?
  {
    && answers.second.Ok? && FetchWorks(answers, selected, n)
    && Deliverable(selected, items, maxGapRatio, answers.tools)
  }

  /** The segment files of the window and of what followed. */
  method FetchBoth(answers: Answers, chosen: seq<Segment>) returns (r: Result<seq<Item>, string>)
    requires Readings(answers) && answers.first.Ok? && chosen != []
    ensures var whole, n := Whole(answers, chosen), |chosen|;
            && (r.Ok? <==> answers.second.Ok? && MapWorks(answers.first.value, answers.remote)
                           && BothFetched(whole[..n], whole[n..], answers.fetch) && answers.audio)
            && (r.Ok? ==> Fetched(whole, r.value, answers.fetch, answers.remote.suffix))
  {
    hide Later, SomeFails, Fetched, FetchedAs;
    var media, remote := answers.first.value, answers.remote;
    ghost var whole := Whole(answers, chosen);
    assert whole[..|chosen|] == chosen;
    if media.mapUri.Some? && remote.init(remote.resolve(media.mapUri.value), media.mapByterange).Err? {
      return Err("no map");
    }
    var none: map<int, Item> := map[];
    assert none.Keys == {};
    var batch := DownloadBatch(chosen, answers.fetch, remote.suffix, none);
    if batch.Err? {
      return Err(batch.error);
    }
    NumbersAre(chosen, batch.value, answers.fetch, remote.suffix);
    if !answers.audio {
      return Err("audio_rendition_unavailable");
    }
    if answers.second.Err? {
      return Err(answers.second.error);
    }
    var later := Later(answers.second.value.segments, chosen[|chosen| - 1].sequence);
    assert whole[|chosen|..] == later;
    r := Gather(chosen, later, answers.fetch, remote.suffix, batch.value);
  }

  lemma NumbersAre(segments: seq<Segment>, downloaded: map<int, Item>, fetch: Segment -> Result<bool, string>,
                   suffix: string -> string)
    requires forall i :: 0 <= i < |segments| ==> segments[i].sequence in downloaded
    requires forall q :: q in downloaded ==> FetchedAs(segments, q, downloaded[q], fetch, suffix)
    ensures downloaded.Keys == Numbers(segments)
  {
    hide FetchedFor;
    forall q | q in downloaded ensures q in Numbers(segments) {
      var j :| 0 <= j < |segments| && segments[j].sequence == q && FetchedFor(segments[j], downloaded[q], fetch, suffix);
      assert segments[j] in segments;
    }
  }

  /** Keys and runs. */
  method DownloadRest(answers: Answers, selected: seq<Segment>, n: nat, items: seq<Item>, maxGapRatio: real)
    returns (r: Result<Metadata, string>, runs: seq<seq<Item>>, texts: seq<string>, names: map<string, string>,
             disk: map<string, seq<byte>>)
    requires answers.first.Ok? && answers.first.value.Media?
    requires Fetched(selected, items, answers.fetch, answers.remote.suffix)
    ensures r.Ok? <==> KeysWork(selected, KeyBase(answers, selected, n)) && Deliverable(selected, items, maxGapRatio, answers.tools)
    ensures r.Ok? ==> answers.tools.probe.Some? && GoodDownload(selected, items, r.value, answers.tools.probe.value)
    ensures r.Ok? ==> runs != [] && Flatten(runs) == Present(items) && |texts| == |runs|
    ensures r.Ok? ==> forall k :: 0 <= k < |runs| ==>
              PlaysItems(texts[k], runs[k], if answers.first.value.mapUri.Some? then Some(MAP_FILE) else None,
                         names, KeyBase(answers, selected, n).resolve)
    ensures r.Ok? ==> KeysOnDisk(selected, KeyBase(answers, selected, n), names, disk)
  {
    hide GoodDownload, Present, Flatten, Deliverable, PlaysItems, KeysWork, KeysOnDisk, PathsPlain, PlainName, SegmentsOf, Fetched;
    runs, texts, names, disk := [], [], map[], map[];
    var base := answers.remote;
    if |selected| > n {
      base := answers.remoteAgain;
    }
    var keys;
    keys, disk := FetchKeys(selected, base);
    if keys.Err? {
      return Err(keys.error), runs, texts, names, disk;
    }
    names := keys.value;
    FetchedPaths(selected, items, answers.fetch, answers.remote.suffix);
    KeysOfItems(selected, items, names, disk, base);
    MapFileIsPlain();
    var mapFile := if answers.first.value.mapUri.Some? then Some(MAP_FILE) else None;
    r, runs, texts := FinishWindow(selected, items, mapFile, names, disk, base, maxGapRatio, answers.tools);
  }

  /** `download_hls_window`: read the playlist, take the window, fetch it, append what was
      published meanwhile, fetch the keys, and finish. It succeeds exactly when every answer
      allows it; then the segments are the window and what followed, every one is there or a
      counted gap, each run's local playlist plays that run, and every key address has a file
      with its key. If both readings number their segments upwards, every segment has its own
      item; segments with one number share the item of one of them. */
  method DownloadWindow(answers: Answers, seconds: Option<real>, maxGapRatio: real)
    returns (r: Result<Metadata, string>, ghost selected: seq<Segment>, ghost n: nat, items: seq<Item>,
             runs: seq<seq<Item>>, texts: seq<string>, names: map<string, string>, disk: map<string, seq<byte>>)
    requires Readings(answers)
    ensures Begins(answers.first, answers.remote, seconds) ==>
              && (BothIncrease(answers) ==> Increasing(selected))
              && (answers.second.Ok? ==> Takes(answers, seconds, selected, n))
    ensures Begins(answers.first, answers.remote, seconds) && answers.second.Ok? && FetchWorks(answers, selected, n) ==>
              && Fetched(selected, items, answers.fetch, answers.remote.suffix)
              && (Increasing(selected) ==> items == ItemsBy(selected, answers.fetch, answers.remote.suffix))
    ensures r.Ok? <==> Begins(answers.first, answers.remote, seconds) && ChosenWorks(answers, selected, n, items, maxGapRatio)
    ensures r.Ok? ==> answers.tools.probe.Some? && GoodDownload(selected, items, r.value, answers.tools.probe.value)
    ensures r.Ok? ==> runs != [] && Flatten(runs) == Present(items) && |texts| == |runs|
    ensures r.Ok? ==> forall k :: 0 <= k < |runs| ==>
              PlaysItems(texts[k], runs[k], if answers.first.value.mapUri.Some? then Some(MAP_FILE) else None,
                         names, (if |selected| > n then answers.remoteAgain else answers.remote).resolve)
    ensures r.Ok? ==> KeysOnDisk(selected, if |selected| > n then answers.remoteAgain else answers.remote, names, disk)
  {
    hide GoodDownload, Present, Flatten, Whole, Deliverable, Takes, PlaysItems, Increasing, Begins, Readings, ChosenWorks;
    hide ItemsBy, BothFetched, MapWorks, KeysOnDisk, Fetched, BothIncrease;
    selected, n, items, runs, texts, names, disk := [], 0, [], [], [], map[], map[];
    OnlyMedia(answers);
    var window := Choose(answers.first, answers.remote, seconds);
    if window.Err? {
      return Err(window.error), selected, n, items, runs, texts, names, disk;
    }
    MediaBegins(answers.first, answers.remote, seconds);
    var chosen := window.value;
    TakesThem(answers, seconds, chosen);
    selected, n := Whole(answers, chosen), |chosen|;
    FetchWorksIf(answers, selected, n);
    ChosenWorksIf(answers, selected, n, items, maxGapRatio);
    var fetched := FetchBoth(answers, chosen);
    if fetched.Err? {
      return Err(fetched.error), selected, n, items, runs, texts, names, disk;
    }
    items := fetched.value;
    ChosenWorksIf(answers, selected, n, items, maxGapRatio);
    if Increasing(selected) {
      FetchedInOrder(selected, items, answers.fetch, answers.remote.suffix);
    }
    r, runs, texts, names, disk := DownloadRest(answers, Whole(answers, chosen), |chosen|, items, maxGapRatio);
  }

  lemma OnlyMedia(answers: Answers)
    requires Readings(answers)
    ensures answers.first.Ok? ==> answers.first.value.Media?
  {
  }

  lemma MediaBegins(first: Result<Playlist, string>, remote: Remote, seconds: Option<real>)
    requires Begins(first, remote, seconds)
    ensures first.Ok? && first.value.Media?
  {
  }

  lemma FetchWorksIf(answers: Answers, selected: seq<Segment>, n: nat)
    requires answers.first.Ok? && answers.first.value.Media? && n <= |selected|
    ensures FetchWorks(answers, selected, n) <==>
            && MapWorks(answers.first.value, answers.remote) && BothFetched(selected[..n], selected[n..], answers.fetch)
            && answers.audio && KeysWork(selected, KeyBase(answers, selected, n))
  {
  }

  lemma ChosenWorksIf(answers: Answers, selected: seq<Segment>, n: nat, items: seq<Item>, maxGapRatio: real)
    requires answers.first.Ok? && answers.first.value.Media?
    ensures ChosenWorks(answers, selected, n, items, maxGapRatio) <==>
            answers.second.Ok? && FetchWorks(answers, selected, n) && Deliverable(selected, items, maxGapRatio, answers.tools)
  {
  }
}

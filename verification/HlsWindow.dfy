/** A live window: which segments are taken, how gaps split them into runs, and what may
    be missing. */
module HlsWindow {
  import opened Common
  import opened PyText
  import opened HlsPlaylist
  import opened HlsReading

  // ------------------------------------------------------------ selecting the window

  function Total(segments: seq<Segment>): real {
    if segments == [] then 0.0 else segments[0].duration + Total(segments[1..])
  }

  lemma {:induction false} TotalConcat(a: seq<Segment>, b: seq<Segment>)
    ensures Total(a + b) == Total(a) + Total(b)
  {
    if a == [] {
      assert a + b == b;
    } else {
      assert (a + b)[1..] == a[1..] + b;
      TotalConcat(a[1..], b);
    }
  }

  /** How long the last `n` segments last. */
  function TailTotal(segments: seq<Segment>, n: nat): real
    requires n <= |segments|
  {
    Total(segments[|segments| - n..])
  }

  /** `r` is the shortest non-empty tail that lasts `seconds` (to a nanosecond), or everything. */
  ghost predicate ShortestTail(segments: seq<Segment>, seconds: real, r: seq<Segment>) {
    && 0 < |r| <= |segments| && r == segments[|segments| - |r|..]
    && (TailTotal(segments, |r|) >= seconds - 0.000000001 || r == segments)
    && (forall n :: 0 < n < |r| ==> TailTotal(segments, n) < seconds - 0.000000001)
  }

  lemma ShortestTailIsUnique(segments: seq<Segment>, seconds: real, a: seq<Segment>, b: seq<Segment>)
    requires ShortestTail(segments, seconds, a) && ShortestTail(segments, seconds, b)
    ensures a == b
  {
    assert segments[|segments| - |segments|..] == segments;
  }

  /** `_select_window`. */
  method SelectWindow(segments: seq<Segment>, seconds: Option<real>) returns (r: Result<seq<Segment>, string>)
    ensures seconds == None ==> r == Ok(segments)
    ensures seconds.Some? ==> (r.Ok? <==> seconds.value > 0.0 && segments != [])
    ensures seconds.Some? && r.Ok? ==> ShortestTail(segments, seconds.value, r.value)
  {
    if seconds == None {
      return Ok(segments);
    }
    if seconds.value <= 0.0 {
      return Err("window_too_short");
    }
    var selected: seq<Segment> := [];
    var duration := 0.0;
    var n: nat := 0;
    while n < |segments|
      invariant 0 <= n <= |segments|
      invariant selected == segments[|segments| - n..] && duration == TailTotal(segments, n)
      invariant forall k :: 0 < k <= n ==> TailTotal(segments, k) < seconds.value - 0.000000001
    {
      var segment := segments[|segments| - 1 - n];
      assert segments[|segments| - 1 - n..][1..] == selected;
      selected := [segment] + selected;
      duration := duration + segment.duration;
      n := n + 1;
      if duration >= seconds.value - 0.000000001 {
        break;
      }
    }
    if |selected| == 0 {
      return Err("window_too_short");
    }
    return Ok(selected);
  }

  // ------------------------------------------------------------ continuous runs

  /** One segment of the window, with its file unless it is a gap. */
  datatype Item = Item(segment: Segment, path: Option<string>)

  /** The items that have a file, in order. */
  function Present(items: seq<Item>): seq<Item> {
    if items == [] then []
    else Present(items[..|items| - 1]) + (if items[|items| - 1].path.Some? then [items[|items| - 1]] else [])
  }

  /** A run begins at `i`: a present item after nothing, after a gap, at a
      discontinuity, or where the sequence numbers jump. */
  predicate IsStart(items: seq<Item>, i: int) {
    0 <= i < |items| && items[i].path.Some? &&
    (i == 0 || items[i - 1].path.None? || items[i].segment.discontinuity
     || items[i].segment.sequence != items[i - 1].segment.sequence + 1)
  }

  predicate EndsAt(items: seq<Item>, i: int) {
    i == |items| || (0 <= i < |items| && (items[i].path.None? || IsStart(items, i)))
  }

  /** `run` is the maximal run of `items` that begins at `start`. */
  ghost predicate RunAt(items: seq<Item>, run: seq<Item>, start: nat) {
    && IsStart(items, start)
    && 0 < |run| <= |items| - start && run == items[start..start + |run|]
    && EndsAt(items, start + |run|)
    && (forall i :: start < i < start + |run| ==> items[i].path.Some? && !IsStart(items, i))
  }

  /** `runs` are all the maximal runs of `items`, in order, beginning at `starts`. */
  ghost predicate MaximalRuns(items: seq<Item>, runs: seq<seq<Item>>, starts: seq<nat>) {
    && |starts| == |runs|
    && (forall j, k :: 0 <= j < k < |starts| ==> starts[j] < starts[k])
    && (forall i :: IsStart(items, i) ==> i in starts)
    && (forall k :: 0 <= k < |runs| ==> RunAt(items, runs[k], starts[k]))
  }

  /** How many runs begin in `items`. */
  function RunCount(items: seq<Item>): nat {
    if items == [] then 0
    else RunCount(items[..|items| - 1]) + (if IsStart(items, |items| - 1) then 1 else 0)
  }

  /** `_continuous_runs`. */
  method ContinuousRuns(items: seq<Item>) returns (runs: seq<seq<Item>>, ghost starts: seq<nat>)
    ensures MaximalRuns(items, runs, starts)
    ensures Flatten(runs) == Present(items) && |runs| == RunCount(items)
  {
    hide MaximalRuns, Flatten, Present, RunCount;
    runs, starts := [], [];
    var current: seq<Item> := [];
    var previousSequence: Option<int> := None;
    NoRuns();
    FlattenStep([], []);
    for n := 0 to |items|
      invariant n > 0 ==> previousSequence == Some(items[n - 1].segment.sequence)
      invariant current == [] <==> n == 0 || items[n - 1].path.None?
      invariant current != [] ==> |starts| > 0 && starts[|starts| - 1] + |current| == n
      invariant MaximalRuns(items[..n], if current == [] then runs else runs + [current], starts)
      invariant Flatten(runs) + current == Present(items[..n])
      invariant RunCount(items[..n]) == |runs| + (if current == [] then 0 else 1)
    {
      FlattenStep(runs, current);
      CountStep(items[..n], items[n]);
      PresentStep(items[..n], items[n]);
      var item := items[n];
      ghost var sofar := if current == [] then runs else runs + [current];
      assert items[..n + 1] == items[..n] + [item];
      if item.path == None {
        RunsBeforeGap(items[..n], item, sofar, starts);
        if |current| > 0 {
          runs := runs + [current];
          current := [];
        }
        previousSequence := Some(item.segment.sequence);
        continue;
      }
      if |current| > 0 && (item.segment.discontinuity || item.segment.sequence != previousSequence.value + 1) {
        runs := runs + [current];
        current := [];
      }
      if |current| == 0 {
        RunsWithNew(items[..n], item, sofar, starts);
        starts := starts + [n];
        assert current + [item] == [item] && runs == sofar;
      } else {
        RunsExtended(items[..n], item, runs, current, starts);
      }
      current := current + [item];
      previousSequence := Some(item.segment.sequence);
    }
    assert items[..|items|] == items;
    FlattenStep(runs, current);
    if |current| > 0 {
      runs := runs + [current];
    }
  }

  lemma FlattenStep(runs: seq<seq<Item>>, current: seq<Item>)
    ensures Flatten(runs + [current]) == Flatten(runs) + current
    ensures Flatten<Item>([]) == [] && Present([]) == []
  {
    assert (runs + [current])[..|runs|] == runs;
  }

  lemma PresentStep(items: seq<Item>, item: Item)
    ensures Present(items + [item]) == Present(items) + (if item.path.Some? then [item] else [])
  {
    assert (items + [item])[..|items|] == items;
  }

  lemma CountStep(items: seq<Item>, item: Item)
    ensures RunCount(items + [item]) == RunCount(items) + (if IsStart(items + [item], |items|) then 1 else 0)
  {
    assert (items + [item])[..|items|] == items;
  }

  lemma NoRuns()
    ensures MaximalRuns([], [], []) && RunCount([]) == 0
  {
  }

  lemma OldStarts(items: seq<Item>, item: Item)
    ensures forall i :: i < |items| ==> IsStart(items + [item], i) == IsStart(items, i)
  {
    forall i | i < |items| ensures IsStart(items + [item], i) == IsStart(items, i) {
      assert 0 <= i ==> (items + [item])[i] == items[i];
      assert 0 < i ==> (items + [item])[i - 1] == items[i - 1];
    }
  }

  /** A run that already ended, or ends before the new item, stays a run. */
  lemma RunStays(items: seq<Item>, item: Item, run: seq<Item>, start: nat)
    requires RunAt(items, run, start)
    requires start + |run| < |items| || EndsAt(items + [item], |items|)
    ensures RunAt(items + [item], run, start)
  {
    var more := items + [item];
    OldStarts(items, item);
    assert forall i :: 0 <= i < |items| ==> more[i] == items[i];
    assert more[start..start + |run|] == items[start..start + |run|];
  }

  lemma RunGrows(items: seq<Item>, item: Item, run: seq<Item>, start: nat)
    requires RunAt(items, run, start) && start + |run| == |items|
    requires item.path.Some? && !IsStart(items + [item], |items|)
    ensures RunAt(items + [item], run + [item], start)
  {
    var more := items + [item];
    OldStarts(items, item);
    assert forall i :: 0 <= i < |items| ==> more[i] == items[i];
    assert more[start..|more|] == items[start..] + [item];
  }

  /** Two runs do not overlap: the earlier one ends where the later one begins, or before. */
  lemma RunEndsBefore(items: seq<Item>, run: seq<Item>, start: nat, later: nat)
    requires RunAt(items, run, start) && IsStart(items, later) && start < later
    ensures start + |run| <= later
  {
  }

  lemma RunsBeforeGap(items: seq<Item>, item: Item, runs: seq<seq<Item>>, starts: seq<nat>)
    requires MaximalRuns(items, runs, starts) && item.path.None?
    ensures MaximalRuns(items + [item], runs, starts)
  {
    hide RunAt;
    OldStarts(items, item);
    assert !IsStart(items + [item], |items|) && EndsAt(items + [item], |items|);
    forall k | 0 <= k < |runs| ensures RunAt(items + [item], runs[k], starts[k]) {
      RunStays(items, item, runs[k], starts[k]);
    }
  }

  lemma StartOfRun(items: seq<Item>, run: seq<Item>, start: nat)
    requires RunAt(items, run, start)
    ensures IsStart(items, start) && start < |items|
  {
  }

  lemma RunsWithNew(items: seq<Item>, item: Item, runs: seq<seq<Item>>, starts: seq<nat>)
    requires MaximalRuns(items, runs, starts) && IsStart(items + [item], |items|)
    ensures MaximalRuns(items + [item], runs + [[item]], starts + [|items|])
  {
    OldStarts(items, item);
    assert RunAt(items + [item], [item], |items|) by {
      assert (items + [item])[|items|..|items| + 1] == [item];
    }
    hide RunAt;
    forall i | IsStart(items + [item], i) ensures i in starts + [|items|] {
      assert i < |items| ==> IsStart(items, i);
    }
    forall k | 0 <= k < |runs|
      ensures RunAt(items + [item], runs[k], starts[k]) && starts[k] < |items|
    {
      StartOfRun(items, runs[k], starts[k]);
      RunStays(items, item, runs[k], starts[k]);
    }
  }

  lemma RunsExtended(items: seq<Item>, item: Item, runs: seq<seq<Item>>, current: seq<Item>, starts: seq<nat>)
    requires current != [] && MaximalRuns(items, runs + [current], starts)
    requires starts[|starts| - 1] + |current| == |items|
    requires item.path.Some? && !IsStart(items + [item], |items|)
    ensures MaximalRuns(items + [item], runs + [current + [item]], starts)
  {
    hide RunAt, IsStart;
    OldStarts(items, item);
    var before := runs + [current];
    assert before[|runs|] == current;
    StartOfRun(items, current, starts[|runs|]);
    RunGrows(items, item, current, starts[|runs|]);
    forall i | IsStart(items + [item], i) ensures i in starts {
      StartBound(items + [item], i);
    }
    forall k | 0 <= k < |runs|
      ensures RunAt(items + [item], runs[k], starts[k])
    {
      assert before[k] == runs[k];
      RunEndsBefore(items, runs[k], starts[k], starts[|runs|]);
      RunStays(items, item, runs[k], starts[k]);
    }
  }

  lemma StartBound(items: seq<Item>, i: int)
    requires IsStart(items, i)
    ensures 0 <= i < |items|
  {
  }

  /** Inside a run the sequence numbers are consecutive, nothing is missing, and only
      its first segment may be marked as a discontinuity. */
  lemma RunIsContinuous(items: seq<Item>, run: seq<Item>, start: nat)
    requires RunAt(items, run, start)
    ensures forall j :: 0 <= j < |run| ==> run[j].path.Some? && run[j].segment.sequence == run[0].segment.sequence + j
    ensures forall j :: 0 < j < |run| ==> !run[j].segment.discontinuity
  {
    for n := 1 to |run|
      invariant forall j :: 0 <= j < n ==> run[j].path.Some? && run[j].segment.sequence == run[0].segment.sequence + j
      invariant forall j :: 0 < j < n ==> !run[j].segment.discontinuity
    {
      assert run[n] == items[start + n] && run[n - 1] == items[start + n - 1];
      assert !IsStart(items, start + n);
    }
  }

  /** Two runs in a row are apart for a reason: a gap between them, a discontinuity, or a jump. */
  lemma RunsAreMaximal(items: seq<Item>, runs: seq<seq<Item>>, starts: seq<nat>, k: nat)
    requires MaximalRuns(items, runs, starts) && k + 1 < |runs|
    ensures var end := starts[k] + |runs[k]|;
            && end <= starts[k + 1] < |items|
            && (items[end].path.None? || items[end].segment.discontinuity
                || items[end].segment.sequence != items[end - 1].segment.sequence + 1)
  {
    assert RunAt(items, runs[k], starts[k]) && RunAt(items, runs[k + 1], starts[k + 1]);
    RunEndsBefore(items, runs[k], starts[k], starts[k + 1]);
    RunIsContinuous(items, runs[k], starts[k]);
    assert items[starts[k] + |runs[k]| - 1] == runs[k][|runs[k]| - 1];
  }

  lemma SortedUnique(a: seq<nat>, b: seq<nat>)
    requires forall j, k :: 0 <= j < k < |a| ==> a[j] < a[k]
    requires forall j, k :: 0 <= j < k < |b| ==> b[j] < b[k]
    requires forall x :: x in a <==> x in b
    ensures a == b
  {
    if a != [] && b != [] {
      var x, y := a[|a| - 1], b[|b| - 1];
      assert x in a && y in b;
      assert x in b && y in a;
      assert x == y;
      var a', b' := a[..|a| - 1], b[..|b| - 1];
      forall z ensures z in a' <==> z in b' {
        assert z in a' ==> z in a && z < x;
        assert z in b' ==> z in b && z < y;
      }
      SortedUnique(a', b');
      assert a == a' + [x] && b == b' + [y];
    } else {
      SomeMember(a);
      SomeMember(b);
    }
  }

  lemma RunNotLonger(items: seq<Item>, a: seq<Item>, b: seq<Item>, start: nat)
    requires RunAt(items, a, start) && RunAt(items, b, start)
    ensures |a| <= |b|
  {
    assert EndsAt(items, start + |b|);
  }

  /** The maximal runs are determined: no other split of the items qualifies. */
  lemma RunsAreUnique(items: seq<Item>, a: seq<seq<Item>>, s: seq<nat>, b: seq<seq<Item>>, t: seq<nat>)
    requires MaximalRuns(items, a, s) && MaximalRuns(items, b, t)
    ensures a == b && s == t
  {
    forall k | 0 <= k < |a| ensures IsStart(items, s[k]) { assert RunAt(items, a[k], s[k]); }
    forall k | 0 <= k < |b| ensures IsStart(items, t[k]) { assert RunAt(items, b[k], t[k]); }
    SortedUnique(s, t);
    forall k | 0 <= k < |a| ensures a[k] == b[k] {
      RunNotLonger(items, a[k], b[k], s[k]);
      RunNotLonger(items, b[k], a[k], s[k]);
    }
  }

  // ------------------------------------------------------------ what may be missing

  const MAX_GAP_COUNT := 3
  const MAX_GAP_DURATION_RATIO := 0.01
  const MAX_DRIFT := 0.05

  /** `_enforce_gap_limits`: whether the window is still worth delivering. */
  predicate GapsAllowed(gapCount: nat, totalCount: nat, missing: real, selected: real, maxGapRatio: real) {
    && (if totalCount > 0 then gapCount as real / totalCount as real else 1.0) <= maxGapRatio
    && gapCount <= MAX_GAP_COUNT
    && (selected > 0.0 ==> missing <= selected * MAX_GAP_DURATION_RATIO)
  }

  /** The limits without a quotient: a window of at least one item passes exactly when its gaps are
      no more than the share of its items, at most three, and no longer than a hundredth of it. */
  lemma GapsAllowedIff(gapCount: nat, totalCount: nat, missing: real, selected: real, maxGapRatio: real)
    ensures totalCount == 0 ==> (GapsAllowed(gapCount, 0, missing, selected, maxGapRatio) ==> maxGapRatio >= 1.0)
    ensures totalCount > 0 ==>
            (GapsAllowed(gapCount, totalCount, missing, selected, maxGapRatio) <==>
              && gapCount as real <= maxGapRatio * totalCount as real && gapCount <= 3
              && (selected > 0.0 ==> 100.0 * missing <= selected))
    ensures totalCount > 0 && maxGapRatio >= 0.0 && selected >= 0.0 ==> GapsAllowed(0, totalCount, 0.0, selected, maxGapRatio)
  {
    if totalCount == 0 { return; }
    var n := totalCount as real;
    var q := gapCount as real / n;
    assert q * n == gapCount as real;
    assert q <= maxGapRatio ==> q * n <= maxGapRatio * n;
    assert q > maxGapRatio ==> q * n > maxGapRatio * n;
    assert 0.0 / n == 0.0;
  }

  function SegmentsOf(items: seq<Item>): seq<Segment> {
    seq(|items|, i requires 0 <= i < |items| => items[i].segment)
  }

  function Gaps(items: seq<Item>): seq<Item> {
    if items == [] then []
    else Gaps(items[..|items| - 1]) + (if items[|items| - 1].path.None? then [items[|items| - 1]] else [])
  }

  /** Seconds selected are seconds delivered plus seconds missing. */
  lemma {:induction false} DurationsAddUp(items: seq<Item>)
    ensures Total(SegmentsOf(items)) == Total(SegmentsOf(Present(items))) + Total(SegmentsOf(Gaps(items)))
  {
    if items != [] {
      var front, last := items[..|items| - 1], items[|items| - 1];
      DurationsAddUp(front);
      var one := [last.segment];
      assert one[1..] == [];
      assert SegmentsOf(items) == SegmentsOf(front) + one;
      TotalConcat(SegmentsOf(front), one);
      if last.path.Some? {
        assert Gaps(items) == Gaps(front);
        assert SegmentsOf(Present(items)) == SegmentsOf(Present(front)) + one;
        TotalConcat(SegmentsOf(Present(front)), one);
      } else {
        assert Present(items) == Present(front);
        assert SegmentsOf(Gaps(items)) == SegmentsOf(Gaps(front)) + one;
        TotalConcat(SegmentsOf(Gaps(front)), one);
      }
    }
  }
}

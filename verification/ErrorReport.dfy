/** Which errors are reported to the operators' channel (telegram/error_report.py): dedup,
    a sliding one-minute window over messages and attachments, and the count of reports the
    window kept back. */
module ErrorReport {
  import opened Common

  const WINDOW := 60.0

  datatype Key = Key(userId: int, url: string, kind: string)

  datatype Settings = Settings(enabled: bool, channel: Option<int>, skipKinds: set<string>,
                               dedupSeconds: real, maxPerMinute: int)

  /** A call of `report`, and one round of the send task: the peek before the text is built
      and the slot its log file takes after the message is out. */
  datatype Event =
    | Report(chatId: int, key: Key, now: real)
    | Peek(now: real)
    | Attach(now: real)

  datatype Accepted = Accepted(key: Key, at: real, carried: nat)

  /** The reporter's fields, the latest clock reading, and what happened so far. */
  datatype State = State(dedup: map<Key, real>, sentAt: seq<real>, skipped: nat, clock: real,
                         consumed: seq<real>, accepted: seq<Accepted>, rateSkips: nat)

  /** `_prune_dedup`. */
  function Recent(dedup: map<Key, real>, now: real, dedupSeconds: real): map<Key, real> {
    map k | k in dedup && now - dedup[k] < dedupSeconds :: dedup[k]
  }

  /** `_prune_rate_window`. */
  function InWindow(sentAt: seq<real>, now: real): seq<real> {
    if sentAt != [] && now - sentAt[0] >= WINDOW then InWindow(sentAt[1..], now) else sentAt
  }

  predicate Gated(cfg: Settings, chatId: int, kind: string) {
    !cfg.enabled || cfg.channel.None? || cfg.channel == Some(0) || cfg.channel == Some(chatId) || kind in cfg.skipKinds
  }

  predicate SlotFree(cfg: Settings, sentAt: seq<real>, now: real) { |InWindow(sentAt, now)| < cfg.maxPerMinute }

  function Consume(s: State, now: real): State {
    s.(sentAt := InWindow(s.sentAt, now) + [now], consumed := s.consumed + [now])
  }

  function Pruned(s: State, now: real): State { s.(sentAt := InWindow(s.sentAt, now)) }

  /** `report` after the clock was read. */
  function OnReport(cfg: Settings, s: State, key: Key, now: real): State {
    var recent := Recent(s.dedup, now, cfg.dedupSeconds);
    var u := s.(dedup := recent, clock := now);
    if key in recent then u
    else if !SlotFree(cfg, s.sentAt, now) then Pruned(u, now).(skipped := s.skipped + 1, rateSkips := s.rateSkips + 1)
    else
      Consume(u, now).(dedup := recent[key := now], skipped := 0,
                       accepted := s.accepted + [Accepted(key, now, s.skipped)])
  }

  function Apply(cfg: Settings, s: State, e: Event): State {
    match e
    case Report(chatId, key, now) => if Gated(cfg, chatId, key.kind) then s else OnReport(cfg, s, key, now)
    case Peek(now) => Pruned(s, now).(clock := now)
    case Attach(now) =>
      (if SlotFree(cfg, s.sentAt, now) then Consume(s, now) else Pruned(s, now)).(clock := now)
  }

  const START := State(map[], [], 0, 0.0, [], [], 0)

  /** The clock never goes back. */
  predicate Enabled(s: State, e: Event) { e.now >= s.clock }

  ghost predicate Runs(cfg: Settings, s: State, es: seq<Event>, t: State)
    decreases |es|
  {
    if es == [] then s == t
    else
      var u, e := es[..|es| - 1], es[|es| - 1];
      exists mid :: Runs(cfg, s, u, mid) && Enabled(mid, e) && t == Apply(cfg, mid, e)
  }

  // ------------------------------------------------------------ the reporter as an object

  class ErrorReporter {
    const cfg: Settings
    var dedup: map<Key, real>
    var sentAt: seq<real>
    var skipped: nat
    ghost var clock: real
    ghost var consumed: seq<real>
    ghost var accepted: seq<Accepted>
    ghost var rateSkips: nat

    ghost function View(): State reads this {
      State(dedup, sentAt, skipped, clock, consumed, accepted, rateSkips)
    }

    constructor (cfg: Settings)
      ensures this.cfg == cfg && View() == START
    {
      this.cfg, dedup, sentAt, skipped := cfg, map[], [], 0;
      clock, consumed, accepted, rateSkips := 0.0, [], [], 0;
    }

    method PruneRateWindow(now: real)
      modifies `sentAt
      ensures sentAt == InWindow(old(sentAt), now)
    {
      while sentAt != [] && now - sentAt[0] >= WINDOW
        invariant InWindow(sentAt, now) == InWindow(old(sentAt), now)
        decreases |sentAt|
      {
        sentAt := sentAt[1..];
      }
    }

    method TryConsumeRateSlot(now: real, countAsSkip: bool) returns (taken: bool)
      modifies `sentAt, `skipped, `consumed, `rateSkips
      ensures taken == SlotFree(cfg, old(sentAt), now)
      ensures sentAt == if taken then InWindow(old(sentAt), now) + [now] else InWindow(old(sentAt), now)
      ensures consumed == if taken then old(consumed) + [now] else old(consumed)
      ensures skipped == old(skipped) + if !taken && countAsSkip then 1 else 0
      ensures rateSkips == old(rateSkips) + if !taken && countAsSkip then 1 else 0
    {
      PruneRateWindow(now);
      if |sentAt| >= cfg.maxPerMinute {
        if countAsSkip {
          skipped := skipped + 1;
          rateSkips := rateSkips + 1;
        }
        return false;
      }
      sentAt := sentAt + [now];
      consumed := consumed + [now];
      taken := true;
    }

    /** The count the scheduled report carries, or None when there is no report. */
    method ReportError(chatId: int, key: Key, now: real) returns (carried: Option<nat>)
      modifies this
      ensures View() == Apply(cfg, old(View()), Report(chatId, key, now))
      ensures carried.Some? <==> |accepted| == |old(accepted)| + 1
      ensures carried.Some? ==> accepted == old(accepted) + [Accepted(key, now, carried.value)]
    {
      if !cfg.enabled || cfg.channel.None? || cfg.channel == Some(0) || cfg.channel == Some(chatId) || key.kind in cfg.skipKinds {
        return None;
      }
      clock := now;
      dedup := map k | k in dedup && now - dedup[k] < cfg.dedupSeconds :: dedup[k];
      if key in dedup && now - dedup[key] < cfg.dedupSeconds {
        return None;
      }
      var taken := TryConsumeRateSlot(now, true);
      if !taken {
        return None;
      }
      dedup := dedup[key := now];
      carried := Some(skipped);
      accepted := accepted + [Accepted(key, now, skipped)];
      skipped := 0;
    }

    method RateSlotAvailable(now: real) returns (free: bool)
      modifies this
      ensures View() == Apply(cfg, old(View()), Peek(now)) && free == SlotFree(cfg, old(sentAt), now)
    {
      PruneRateWindow(now);
      clock := now;
      free := |sentAt| < cfg.maxPerMinute;
    }

    method TakeAttachmentSlot(now: real) returns (taken: bool)
      modifies this
      ensures View() == Apply(cfg, old(View()), Attach(now)) && taken == SlotFree(cfg, old(sentAt), now)
    {
      taken := TryConsumeRateSlot(now, false);
      clock := now;
    }
  }

  // ------------------------------------------------------------ invariants

  ghost predicate Sorted(times: seq<real>) { forall i, j :: 0 <= i < j < |times| ==> times[i] <= times[j] }

  /** The deque is the end of everything consumed; what left it is at least a minute old. */
  ghost predicate Window(s: State) {
    && Sorted(s.consumed) && (forall i :: 0 <= i < |s.consumed| ==> s.consumed[i] <= s.clock)
    && |s.sentAt| <= |s.consumed| && s.sentAt == s.consumed[|s.consumed| - |s.sentAt|..]
    && forall i :: 0 <= i < |s.consumed| - |s.sentAt| ==> s.clock - s.consumed[i] >= WINDOW
  }

  /** Any `max` + 1 consumed slots in a row take at least a minute. */
  ghost predicate Spaced(consumed: seq<real>, max: nat) {
    forall i, j :: 0 <= i && j == i + max && j < |consumed| ==> consumed[j] - consumed[i] >= WINDOW
  }

  ghost predicate Remembered(cfg: Settings, s: State) {
    && (forall k :: k in s.dedup ==> s.dedup[k] <= s.clock)
    && (forall i :: 0 <= i < |s.accepted| ==> s.accepted[i].at <= s.clock)
    && (forall i :: 0 <= i < |s.accepted| ==>
          var a := s.accepted[i];
          (a.key in s.dedup && s.dedup[a.key] >= a.at) || s.clock - a.at >= cfg.dedupSeconds)
  }

  ghost predicate Apart(accepted: seq<Accepted>, dedupSeconds: real) {
    forall i, j :: 0 <= i < j < |accepted| && accepted[i].key == accepted[j].key ==>
                     accepted[j].at - accepted[i].at >= dedupSeconds
  }

  function Carried(accepted: seq<Accepted>): nat {
    if accepted == [] then 0 else Carried(accepted[..|accepted| - 1]) + accepted[|accepted| - 1].carried
  }

  predicate Conserved(s: State) { s.rateSkips == Carried(s.accepted) + s.skipped }

  function Slots(cfg: Settings): nat { Max(cfg.maxPerMinute, 0) }

  ghost predicate WindowInv(cfg: Settings, s: State) {
    Window(s) && |s.sentAt| <= Slots(cfg) && Spaced(s.consumed, Slots(cfg))
  }

  ghost predicate Inv(cfg: Settings, s: State) {
    && WindowInv(cfg, s)
    && Remembered(cfg, s) && Apart(s.accepted, cfg.dedupSeconds) && Conserved(s)
  }

  lemma {:induction false} InWindowIs(sentAt: seq<real>, now: real)
    ensures var r := InWindow(sentAt, now);
            && |r| <= |sentAt| && r == sentAt[|sentAt| - |r|..]
            && (forall i :: 0 <= i < |sentAt| - |r| ==> now - sentAt[i] >= WINDOW)
    decreases |sentAt|
  {
    if sentAt != [] && now - sentAt[0] >= WINDOW {
      InWindowIs(sentAt[1..], now);
    }
  }

  lemma PrunedWindow(cfg: Settings, s: State, now: real)
    requires WindowInv(cfg, s) && now >= s.clock
    ensures WindowInv(cfg, Pruned(s, now).(clock := now))
  {
    hide InWindow, Sorted;
    InWindowIs(s.sentAt, now);
    var t := Pruned(s, now).(clock := now);
    forall i | 0 <= i < |t.consumed| - |t.sentAt| ensures now - t.consumed[i] >= WINDOW {
      var gone := |s.consumed| - |s.sentAt|;
      if i >= gone {
        assert s.consumed[i] == s.sentAt[i - gone];
      }
    }
  }

  lemma ConsumedWindow(cfg: Settings, s: State, now: real)
    requires WindowInv(cfg, s) && now >= s.clock && SlotFree(cfg, s.sentAt, now)
    ensures WindowInv(cfg, Consume(s, now).(clock := now))
  {
    hide InWindow;
    PrunedWindow(cfg, s, now);
    var u := Pruned(s, now).(clock := now);
    var t := Consume(s, now).(clock := now);
    SpacedMore(s.consumed, Slots(cfg), |u.consumed| - |u.sentAt|, now);
    assert t.consumed == s.consumed + [now];
  }

  /** One more slot keeps the spacing when all but the last few were a minute ago. */
  lemma SpacedMore(consumed: seq<real>, max: nat, gone: int, now: real)
    requires Spaced(consumed, max) && gone <= |consumed| && |consumed| - gone < max
    requires forall i :: 0 <= i < gone ==> now - consumed[i] >= WINDOW
    ensures Spaced(consumed + [now], max)
  {
    var more := consumed + [now];
    forall i, j | 0 <= i && j == i + max && j < |more| ensures more[j] - more[i] >= WINDOW {
      if j < |consumed| {
        assert consumed[j] - consumed[i] >= WINDOW;
      }
    }
  }

  /** A step either leaves the window alone but for the clock, prunes it, or consumes a slot. */
  lemma WindowMoves(cfg: Settings, s: State, e: Event)
    ensures var t := Apply(cfg, s, e);
            || SameWindow(t, s)
            || SameWindow(t, s.(clock := e.now))
            || SameWindow(t, Pruned(s, e.now).(clock := e.now))
            || (SlotFree(cfg, s.sentAt, e.now) && SameWindow(t, Consume(s, e.now).(clock := e.now)))
  {
    hide InWindow, SlotFree, Recent, Gated;
  }

  predicate SameWindow(s: State, t: State) { s.sentAt == t.sentAt && s.consumed == t.consumed && s.clock == t.clock }

  lemma WindowOf(cfg: Settings, s: State, t: State)
    requires SameWindow(s, t) && WindowInv(cfg, t)
    ensures WindowInv(cfg, s)
  {
  }

  lemma ClockOn(cfg: Settings, s: State, now: real)
    requires WindowInv(cfg, s) && now >= s.clock
    ensures WindowInv(cfg, s.(clock := now))
  {
  }

  lemma StepWindow(cfg: Settings, s: State, e: Event)
    requires Inv(cfg, s) && Enabled(s, e)
    ensures WindowInv(cfg, Apply(cfg, s, e))
  {
    hide WindowInv, SameWindow, Pruned, Consume, Remembered, Apart, Conserved, Apply, SlotFree;
    var t := Apply(cfg, s, e);
    WindowMoves(cfg, s, e);
    ClockOn(cfg, s, e.now);
    PrunedWindow(cfg, s, e.now);
    if SameWindow(t, s) {
      WindowOf(cfg, t, s);
    } else if SameWindow(t, s.(clock := e.now)) {
      WindowOf(cfg, t, s.(clock := e.now));
    } else if SameWindow(t, Pruned(s, e.now).(clock := e.now)) {
      WindowOf(cfg, t, Pruned(s, e.now).(clock := e.now));
    } else {
      ConsumedWindow(cfg, s, e.now);
      WindowOf(cfg, t, Consume(s, e.now).(clock := e.now));
    }
  }

  lemma StepRemembered(cfg: Settings, s: State, e: Event)
    requires Remembered(cfg, s) && Apart(s.accepted, cfg.dedupSeconds) && Enabled(s, e)
    ensures var t := Apply(cfg, s, e); Remembered(cfg, t) && Apart(t.accepted, cfg.dedupSeconds)
  {
    hide InWindow, SlotFree, Gated;
    var t := Apply(cfg, s, e);
    if |t.accepted| > |s.accepted| {
      var n := |s.accepted|;
      forall i | 0 <= i < n && s.accepted[i].key == e.key ensures e.now - s.accepted[i].at >= cfg.dedupSeconds {
        var a := s.accepted[i];
        assert a.key !in Recent(s.dedup, e.now, cfg.dedupSeconds);
      }
    }
  }

  lemma StepConserved(cfg: Settings, s: State, e: Event)
    requires Conserved(s)
    ensures Conserved(Apply(cfg, s, e))
  {
    hide InWindow, SlotFree, Gated, Recent;
    var t := Apply(cfg, s, e);
    if |t.accepted| > |s.accepted| {
      assert t.accepted[..|s.accepted|] == s.accepted;
    }
  }

  lemma {:induction false} RunInv(cfg: Settings, es: seq<Event>, t: State)
    requires Runs(cfg, START, es, t)
    ensures Inv(cfg, t)
    decreases |es|
  {
    hide Apply, WindowInv, Remembered, Apart;
    if es == [] {
      StartInv(cfg);
    } else {
      var u, e := es[..|es| - 1], es[|es| - 1];
      var mid :| Runs(cfg, START, u, mid) && Enabled(mid, e) && t == Apply(cfg, mid, e);
      RunInv(cfg, u, mid);
      StepWindow(cfg, mid, e);
      StepRemembered(cfg, mid, e);
      StepConserved(cfg, mid, e);
    }
  }

  lemma StartInv(cfg: Settings)
    ensures Inv(cfg, START)
  {
  }

  // ------------------------------------------------------------ what every run keeps

  /** How many slots were consumed in the half-open minute from `from`. */
  function CountIn(times: seq<real>, from: real): nat {
    if times == [] then 0
    else
      var last := times[|times| - 1];
      CountIn(times[..|times| - 1], from) + if from <= last < from + WINDOW then 1 else 0
  }

  lemma {:induction false} NoneIn(times: seq<real>, from: real)
    requires forall i :: 0 <= i < |times| ==> !(from <= times[i] < from + WINDOW)
    ensures CountIn(times, from) == 0
  {
    if times != [] {
      NoneIn(times[..|times| - 1], from);
    }
  }

  /** In sorted times the ones in a minute are neighbours, so a count is an index distance. */
  lemma {:induction false} CountIsSpan(times: seq<real>, from: real, k: nat)
    requires Sorted(times) && k <= |times|
    requires forall i :: 0 <= i < k ==> times[i] < from
    requires forall i :: k <= i < |times| ==> times[i] >= from
    ensures CountIn(times, from) > 0 ==> k + CountIn(times, from) - 1 < |times| && times[k + CountIn(times, from) - 1] < from + WINDOW
    decreases |times|
  {
    if times == [] {
    } else if k == |times| {
      NoneIn(times, from);
    } else {
      var last := |times| - 1;
      CountIsSpan(times[..last], from, k);
      if times[last] < from + WINDOW {
        AllIn(times[..last], from, k);
      }
    }
  }

  lemma {:induction false} AllIn(times: seq<real>, from: real, k: nat)
    requires k <= |times|
    requires forall i :: 0 <= i < k ==> times[i] < from
    requires forall i :: k <= i < |times| ==> from <= times[i] < from + WINDOW
    ensures CountIn(times, from) == |times| - k
  {
    if |times| == k {
      NoneIn(times, from);
    } else {
      AllIn(times[..|times| - 1], from, k);
    }
  }

  function FirstAtLeast(times: seq<real>, from: real): (k: nat)
    ensures k <= |times|
    ensures k < |times| ==> times[k] >= from
    ensures forall i :: 0 <= i < k ==> times[i] < from
  {
    if times == [] || times[0] >= from then 0 else 1 + FirstAtLeast(times[1..], from)
  }

  lemma AtLeastFrom(times: seq<real>, from: real, k: nat)
    requires Sorted(times) && k <= |times| && (k < |times| ==> times[k] >= from)
    ensures forall i :: k <= i < |times| ==> times[i] >= from
  {
  }

  lemma SpacedFar(times: seq<real>, max: nat, i: nat, j: nat)
    requires Sorted(times) && Spaced(times, max) && i + max <= j < |times|
    ensures times[j] - times[i] >= WINDOW
  {
    assert times[i + max] - times[i] >= WINDOW;
  }

  lemma SpacedCount(times: seq<real>, max: nat, from: real)
    requires Sorted(times) && Spaced(times, max)
    ensures CountIn(times, from) <= max
  {
    hide Spaced, Sorted, CountIn;
    var k := FirstAtLeast(times, from);
    AtLeastFrom(times, from, k);
    CountIsSpan(times, from, k);
    var n := CountIn(times, from);
    if n > max {
      SpacedFar(times, max, k, k + n - 1);
    }
  }

  /** Every accepted report consumed a slot of its own. */
  lemma {:induction false} ReportsConsume(cfg: Settings, es: seq<Event>, t: State)
    requires Runs(cfg, START, es, t)
    ensures |t.accepted| <= |t.consumed|
    decreases |es|
  {
    hide InWindow, SlotFree, Gated, Recent;
    if es != [] {
      var u, e := es[..|es| - 1], es[|es| - 1];
      var mid :| Runs(cfg, START, u, mid) && Enabled(mid, e) && t == Apply(cfg, mid, e);
      ReportsConsume(cfg, u, mid);
    }
  }

  /** Over any run with a clock that does not go back: in no half-open minute are more slots
      consumed than the limit, and every accepted report consumed one (when its message leaves
      depends on Telegram, so this bounds decisions, not messages on the wire); two reports of
      the same user, link and kind are at least `dedup_seconds` apart; and every report the
      limit kept back is counted once, in a later accepted report or in the counter still
      waiting for one. */
  lemma WhatGoesOut(cfg: Settings, es: seq<Event>, t: State, from: real)
    requires Runs(cfg, START, es, t)
    ensures CountIn(t.consumed, from) <= Slots(cfg) && |t.accepted| <= |t.consumed|
    ensures Apart(t.accepted, cfg.dedupSeconds)
    ensures t.rateSkips == Carried(t.accepted) + t.skipped
  {
    hide CountIn, Spaced, Apart, Remembered;
    RunInv(cfg, es, t);
    ReportsConsume(cfg, es, t);
    SpacedCount(t.consumed, Slots(cfg), from);
  }

  // ------------------------------------------------------------ which reports go out

  /** Slots consumed within the last minute. */
  function RecentSlots(times: seq<real>, now: real): nat {
    if times == [] then 0
    else RecentSlots(times[..|times| - 1], now) + if now - times[|times| - 1] < 60.0 then 1 else 0
  }

  lemma {:induction false} RecentSlotsAre(times: seq<real>, now: real, k: nat)
    requires k <= |times|
    requires forall i :: 0 <= i < k ==> now - times[i] >= 60.0
    requires forall i :: k <= i < |times| ==> now - times[i] < 60.0
    ensures RecentSlots(times, now) == |times| - k
    decreases |times|
  {
    if times != [] {
      RecentSlotsAre(times[..|times| - 1], now, Min(k, |times| - 1));
    }
  }

  lemma {:induction false} OldestIsRecent(sentAt: seq<real>, now: real)
    ensures InWindow(sentAt, now) != [] ==> now - InWindow(sentAt, now)[0] < 60.0
    decreases |sentAt|
  {
    if sentAt != [] && now - sentAt[0] >= WINDOW {
      OldestIsRecent(sentAt[1..], now);
    }
  }

  /** What the window holds is what was consumed within the last minute. */
  lemma WindowCounts(cfg: Settings, s: State, now: real)
    requires Window(s) && now >= s.clock
    ensures |InWindow(s.sentAt, now)| == RecentSlots(s.consumed, now)
  {
    hide InWindow, RecentSlots;
    InWindowIs(s.sentAt, now);
    OldestIsRecent(s.sentAt, now);
    var r, gone := InWindow(s.sentAt, now), |s.consumed| - |s.sentAt|;
    var k := |s.consumed| - |r|;
    forall i | 0 <= i < k ensures now - s.consumed[i] >= 60.0 {
      if i >= gone {
        assert s.consumed[i] == s.sentAt[i - gone];
      }
    }
    forall i | k <= i < |s.consumed| ensures now - s.consumed[i] < 60.0 {
      assert s.consumed[k] == s.sentAt[k - gone] == r[0];
    }
    RecentSlotsAre(s.consumed, now, k);
  }

  /** Every remembered time is that of an accepted report. */
  ghost predicate FromAccepted(s: State) { forall k :: k in s.dedup ==> exists i :: WasAccepted(s.accepted, i, k, s.dedup[k]) }

  predicate WasAccepted(accepted: seq<Accepted>, i: int, key: Key, at: real) {
    0 <= i < |accepted| && accepted[i].key == key && accepted[i].at == at
  }

  lemma StepFromAccepted(cfg: Settings, s: State, e: Event)
    requires FromAccepted(s)
    ensures FromAccepted(Apply(cfg, s, e))
  {
    hide InWindow, SlotFree, Gated;
    var t := Apply(cfg, s, e);
    forall k | k in t.dedup ensures exists i :: WasAccepted(t.accepted, i, k, t.dedup[k]) {
      if k in s.dedup && t.dedup[k] == s.dedup[k] {
        var i :| WasAccepted(s.accepted, i, k, s.dedup[k]);
        assert WasAccepted(t.accepted, i, k, t.dedup[k]);
      } else {
        assert WasAccepted(t.accepted, |s.accepted|, k, t.dedup[k]);
      }
    }
  }

  lemma {:induction false} RunFromAccepted(cfg: Settings, es: seq<Event>, t: State)
    requires Runs(cfg, START, es, t)
    ensures FromAccepted(t)
    decreases |es|
  {
    hide Apply;
    if es != [] {
      var u, e := es[..|es| - 1], es[|es| - 1];
      var mid :| Runs(cfg, START, u, mid) && Enabled(mid, e) && t == Apply(cfg, mid, e);
      RunFromAccepted(cfg, u, mid);
      StepFromAccepted(cfg, mid, e);
    }
  }

  /** No report of this user, link and kind was accepted within `dedup_seconds`. */
  ghost predicate NotLately(cfg: Settings, s: State, key: Key, now: real) {
    forall i :: 0 <= i < |s.accepted| && s.accepted[i].key == key ==> now - s.accepted[i].at >= cfg.dedupSeconds
  }

  lemma NotLatelyIff(cfg: Settings, s: State, key: Key, now: real)
    requires Remembered(cfg, s) && FromAccepted(s) && now >= s.clock
    ensures key in Recent(s.dedup, now, cfg.dedupSeconds) <==> !NotLately(cfg, s, key, now)
  {
    if key in Recent(s.dedup, now, cfg.dedupSeconds) {
      var i :| WasAccepted(s.accepted, i, key, s.dedup[key]);
      assert now - s.accepted[i].at < cfg.dedupSeconds;
    }
  }

  lemma WhatDecides(cfg: Settings, es: seq<Event>, s: State, key: Key, now: real)
    requires Runs(cfg, START, es, s) && now >= s.clock
    ensures key in Recent(s.dedup, now, cfg.dedupSeconds) <==> !NotLately(cfg, s, key, now)
    ensures SlotFree(cfg, s.sentAt, now) <==> RecentSlots(s.consumed, now) < cfg.maxPerMinute
  {
    hide Runs, Inv, Recent, NotLately, RecentSlots, InWindow, Window, Remembered, FromAccepted;
    RunInv(cfg, es, s);
    InvParts(cfg, s);
    RunFromAccepted(cfg, es, s);
    NotLatelyIff(cfg, s, key, now);
    WindowCounts(cfg, s, now);
  }

  lemma InvParts(cfg: Settings, s: State)
    requires Inv(cfg, s)
    ensures Window(s) && Remembered(cfg, s)
  {
    hide Window, Remembered, Apart, Spaced;
  }

  /** A report goes out exactly when reports are on, a channel is set and it is not the chat itself,
      its kind is not skipped, the same report was not accepted within `dedup_seconds`, and fewer
      than `max_per_minute` slots were consumed within the last minute. It then carries the number
      of reports the limit kept back since the one before; one the limit keeps back is counted. */
  lemma AcceptedIff(cfg: Settings, es: seq<Event>, s: State, chatId: int, key: Key, now: real)
    requires Runs(cfg, START, es, s) && now >= s.clock
    ensures var t := Apply(cfg, s, Report(chatId, key, now));
            var wanted := && cfg.enabled && cfg.channel.Some? && cfg.channel.value != 0 && cfg.channel.value != chatId
                          && key.kind !in cfg.skipKinds && NotLately(cfg, s, key, now);
            var free := RecentSlots(s.consumed, now) < cfg.maxPerMinute;
            && t.accepted == (if wanted && free then s.accepted + [Accepted(key, now, s.skipped)] else s.accepted)
            && t.consumed == (if wanted && free then s.consumed + [now] else s.consumed)
            && t.skipped == if !wanted then s.skipped else if free then 0 else s.skipped + 1
  {
    hide Runs, RecentSlots, Recent, NotLately, SlotFree, InWindow;
    WhatDecides(cfg, es, s, key, now);
  }

  /** A message's log file goes out, and a free slot is announced for it, under the same limit; a
      file that does not is not counted as a skipped report. */
  lemma AttachedIff(cfg: Settings, es: seq<Event>, s: State, now: real)
    requires Runs(cfg, START, es, s) && now >= s.clock
    ensures var t := Apply(cfg, s, Attach(now));
            var free := RecentSlots(s.consumed, now) < cfg.maxPerMinute;
            && t.consumed == (if free then s.consumed + [now] else s.consumed)
            && t.skipped == s.skipped && t.accepted == s.accepted && SlotFree(cfg, s.sentAt, now) == free
  {
    hide Runs, RecentSlots, SlotFree, InWindow;
    WhatDecides(cfg, es, s, Key(0, "", ""), now);
  }
}

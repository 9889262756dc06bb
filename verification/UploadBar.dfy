/** The upload bar (telegram/progress.py, `UploadProgress`): byte counts that arrive out of
    order become a few edits. Calls are taken one after another. */
module UploadBar {
  import opened Common

  /** `total` is at least 1 and `minStep` the points an edit must move by. */
  datatype Settings = Settings(total: nat, minStep: nat, minInterval: real) {
    predicate Valid() { total >= 1 && minStep >= 1 }
  }

  /** `shownAt` is None before the first edit (minus infinity). */
  datatype Bar = Bar(base: nat, shown: nat, shownAt: Option<real>, inFlood: bool)

  datatype Event = StartPart(bytesBefore: nat) | Bytes(done: nat, now: real) | FloodWait(seconds: nat) | FloodCleared

  function Percent(cfg: Settings, bytes: nat): nat
    requires cfg.Valid()
  {
    Min(100, bytes * 100 / cfg.total)
  }

  predicate TooSoon(cfg: Settings, b: Bar, percent: nat, now: real) {
    percent < b.shown + cfg.minStep || (b.shownAt.Some? && now - b.shownAt.value < cfg.minInterval)
  }

  /** Whether a byte count leads to an edit. */
  predicate Edits(cfg: Settings, b: Bar, done: nat, now: real)
    requires cfg.Valid()
  {
    var percent := Percent(cfg, b.base + done);
    (b.inFlood || percent > b.shown) && (percent == 100 || b.inFlood || !TooSoon(cfg, b, percent, now))
  }

  function Next(cfg: Settings, b: Bar, e: Event): Bar
    requires cfg.Valid()
  {
    match e
    case StartPart(n) => b.(base := n)
    case Bytes(done, now) =>
      if Edits(cfg, b, done, now) then
        b.(shown := Max(b.shown, Percent(cfg, b.base + done)), shownAt := Some(now), inFlood := false)
      else b
    case FloodWait(seconds) => if seconds >= 10 then b.(inFlood := true) else b
    case FloodCleared => b.(inFlood := false)
  }

  const START := Bar(0, 0, None, false)

  function After(cfg: Settings, es: seq<Event>): Bar
    requires cfg.Valid()
  {
    if es == [] then START else Next(cfg, After(cfg, es[..|es| - 1]), es[|es| - 1])
  }

  /** Whether an event leads to an edit: a byte count, the message about a long flood wait, or the
      one that puts the bar back after it. */
  predicate Updates(cfg: Settings, b: Bar, e: Event)
    requires cfg.Valid()
  {
    match e
    case StartPart(_) => false
    case Bytes(done, now) => Edits(cfg, b, done, now)
    case FloodWait(seconds) => seconds >= 10
    case FloodCleared => b.inFlood
  }

  /** Edits in a history. */
  function EditCount(cfg: Settings, es: seq<Event>): nat
    requires cfg.Valid()
  {
    if es == [] then 0
    else EditCount(cfg, es[..|es| - 1]) + if Updates(cfg, After(cfg, es[..|es| - 1]), es[|es| - 1]) then 1 else 0
  }

  function LongFloods(es: seq<Event>): nat {
    if es == [] then 0
    else
      var e := es[|es| - 1];
      LongFloods(es[..|es| - 1]) + if e.FloodWait? && e.seconds >= 10 then 1 else 0
  }

  /** `UploadProgress`. */
  class UploadProgress {
    const cfg: Settings
    var base: nat
    var shown: nat
    var shownAt: Option<real>
    var inFlood: bool

    function View(): Bar reads this { Bar(base, shown, shownAt, inFlood) }

    constructor (total: nat, minStep: nat, minInterval: real)
      requires minStep >= 1
      ensures cfg.Valid() && View() == START
      ensures cfg == Settings(Max(total, 1), minStep, minInterval)
    {
      cfg := Settings(Max(total, 1), minStep, minInterval);
      base, shown, shownAt, inFlood := 0, 0, None, false;
    }

    method StartPart(bytesBefore: nat)
      requires cfg.Valid()
      modifies this
      ensures View() == Next(cfg, old(View()), Event.StartPart(bytesBefore))
    {
      base := bytesBefore;
    }

    method Report(done: nat, now: real) returns (edited: bool)
      requires cfg.Valid()
      modifies this
      ensures View() == Next(cfg, old(View()), Bytes(done, now))
      ensures edited == Edits(cfg, old(View()), done, now)
    {
      var totalDone := base + done;
      var percent := Min(100, totalDone * 100 / cfg.total);
      if percent <= shown && !inFlood {
        return false;
      }
      var finished := percent == 100;
      if !finished && !inFlood
         && (percent - shown < cfg.minStep || (shownAt.Some? && now - shownAt.value < cfg.minInterval)) {
        return false;
      }
      shown := Max(shown, percent);
      shownAt := Some(now);
      inFlood := false;
      edited := true;
    }

    method HandleFloodWait(seconds: nat) returns (edited: bool)
      requires cfg.Valid()
      modifies this
      ensures View() == Next(cfg, old(View()), FloodWait(seconds))
      ensures edited == Updates(cfg, old(View()), FloodWait(seconds))
    {
      if seconds >= 10 {
        inFlood := true;
        return true;
      }
      edited := false;
    }

    method HandleFloodCleared() returns (edited: bool)
      requires cfg.Valid()
      modifies this
      ensures View() == Next(cfg, old(View()), FloodCleared)
      ensures edited == Updates(cfg, old(View()), FloodCleared)
    {
      if inFlood {
        inFlood := false;
        return true;
      }
      edited := false;
    }
  }

  predicate Full(b: Bar) { b.shown == 100 }

  lemma StepBound(cfg: Settings, b: Bar, e: Event)
    requires cfg.Valid() && b.shown <= 100
    ensures var c := Next(cfg, b, e);
            && b.shown <= c.shown <= 100
            && (e.Bytes? && Edits(cfg, b, e.done, e.now) && !b.inFlood ==>
                  !Full(b) && (Full(c) || c.shown >= b.shown + cfg.minStep))
  {
    hide Percent, TooSoon;
    if e.Bytes? {
      PercentBound(cfg, b.base + e.done);
      SoonEnough(cfg, b, Percent(cfg, b.base + e.done), e.now);
    }
  }

  lemma PercentBound(cfg: Settings, bytes: nat)
    requires cfg.Valid()
    ensures Percent(cfg, bytes) <= 100
  {
  }

  lemma SoonEnough(cfg: Settings, b: Bar, percent: nat, now: real)
    ensures !TooSoon(cfg, b, percent, now) ==> percent >= b.shown + cfg.minStep
  {
  }

  /** The percentage never falls and never passes 100, in any history. */
  lemma {:induction false} ShownNeverFalls(cfg: Settings, es: seq<Event>, k: nat)
    requires cfg.Valid() && k <= |es|
    ensures After(cfg, es[..k]).shown <= After(cfg, es).shown <= 100
    decreases |es|
  {
    hide Next;
    if es != [] {
      var u := es[..|es| - 1];
      if k == |es| {
        assert es[..k] == es;
        ShownNeverFalls(cfg, u, k - 1);
      } else {
        assert u[..k] == es[..k];
        ShownNeverFalls(cfg, u, k);
      }
      StepBound(cfg, After(cfg, u), es[|es| - 1]);
    } else {
      assert es[..k] == es;
    }
  }

  /** Every edit beyond the two a long flood wait can lead to (its message, and the bar put back)
      reached 100 or moved the bar by at least `minStep`. */
  ghost predicate Paid(cfg: Settings, es: seq<Event>)
    requires cfg.Valid()
  {
    exists steps: nat :: PaidBy(cfg, es, steps)
  }

  ghost predicate PaidBy(cfg: Settings, es: seq<Event>, steps: nat)
    requires cfg.Valid()
  {
    var b := After(cfg, es);
    && EditCount(cfg, es) <= steps + (if Full(b) then 1 else 0) + 2 * LongFloods(es) - (if b.inFlood then 1 else 0)
    && steps * cfg.minStep <= Min(b.shown, 99)
  }

  lemma StepsGrow(steps: nat, minStep: nat, shown: nat)
    requires steps * minStep <= shown
    ensures (steps + 1) * minStep <= shown + minStep
  {
  }

  lemma {:induction false} AllPaid(cfg: Settings, es: seq<Event>)
    requires cfg.Valid()
    ensures Paid(cfg, es)
    decreases |es|
  {
    hide Next, Edits;
    if es == [] {
      assert 0 * cfg.minStep <= 0;
      assert PaidBy(cfg, es, 0);
    } else {
      var u, e := es[..|es| - 1], es[|es| - 1];
      AllPaid(cfg, u);
      var b, c := After(cfg, u), Next(cfg, After(cfg, u), e);
      var steps: nat :| PaidBy(cfg, u, steps);
      ShownNeverFalls(cfg, u, 0);
      StepBound(cfg, b, e);
      FloodFlag(cfg, b, e);
      StepsGrow(steps, cfg.minStep, b.shown);
      var moves := e.Bytes? && Edits(cfg, b, e.done, e.now) && !b.inFlood && !Full(c);
      assert PaidBy(cfg, es, if moves then steps + 1 else steps);
    }
  }

  lemma FloodFlag(cfg: Settings, b: Bar, e: Event)
    requires cfg.Valid()
    ensures var c := Next(cfg, b, e);
            && (c.inFlood ==> b.inFlood || (e.FloodWait? && e.seconds >= 10))
            && (e.FloodCleared? || (e.Bytes? && Edits(cfg, b, e.done, e.now)) ==> !c.inFlood)
  {
  }

  lemma Scaled(n: nat, k: nat, d: nat)
    ensures n >= k ==> n * d >= k * d
  {
  }

  lemma Quotient(n: nat, d: nat, m: nat)
    requires d >= 1 && n * d <= m
    ensures n <= m / d
  {
    Scaled(n, m / d + 1, d);
    assert (m / d + 1) * d > m;
  }

  /** At most `99 / minStep + 1` edits for a request without long flood waits, and at most two
      more for each of those, whatever order the byte counts arrive in. */
  lemma EditBound(cfg: Settings, es: seq<Event>)
    requires cfg.Valid()
    ensures EditCount(cfg, es) <= 99 / cfg.minStep + 1 + 2 * LongFloods(es)
  {
    hide Next, Edits, EditCount, LongFloods;
    AllPaid(cfg, es);
    ShownNeverFalls(cfg, es, 0);
    var steps: nat :| PaidBy(cfg, es, steps);
    Quotient(steps, cfg.minStep, 99);
  }

  // ------------------------------------------------------------ the bound is reached

  function Hundred(minStep: nat): Settings { Settings(100, minStep, 0.0) }

  lemma OneEdit(cfg: Settings, es: seq<Event>, e: Event)
    requires cfg.Valid()
    ensures After(cfg, es + [e]) == Next(cfg, After(cfg, es), e)
    ensures EditCount(cfg, es + [e]) == EditCount(cfg, es) + if Updates(cfg, After(cfg, es), e) then 1 else 0
    ensures LongFloods(es + [e]) == LongFloods(es) + if e.FloodWait? && e.seconds >= 10 then 1 else 0
  {
    assert (es + [e])[..|es|] == es;
  }

  lemma {:induction false} FloodEdits(cfg: Settings, floods: nat) returns (es: seq<Event>)
    requires cfg.Valid()
    ensures EditCount(cfg, es) == 2 * floods && LongFloods(es) == floods && After(cfg, es) == START
  {
    hide After, EditCount, LongFloods;
    if floods == 0 {
      es := [];
      NoEdits(cfg);
    } else {
      var fs := FloodEdits(cfg, floods - 1);
      OneEdit(cfg, fs, FloodWait(10));
      OneEdit(cfg, fs + [FloodWait(10)], FloodCleared);
      es := fs + [FloodWait(10)] + [FloodCleared];
    }
  }

  lemma NoEdits(cfg: Settings)
    requires cfg.Valid()
    ensures EditCount(cfg, []) == 0 && LongFloods([]) == 0 && After(cfg, []) == START
  {
  }

  /** One edit for each of the first `n` steps of the bar. */
  lemma {:induction false} StepEdits(minStep: nat, floods: nat, n: nat) returns (es: seq<Event>)
    requires minStep >= 1 && n * minStep < 100
    ensures EditCount(Hundred(minStep), es) == n + 2 * floods && LongFloods(es) == floods
    ensures var b := After(Hundred(minStep), es);
            b.base == 0 && b.shown == n * minStep && !b.inFlood && (b.shownAt.Some? ==> b.shownAt.value == 0.0)
  {
    hide After, EditCount, LongFloods;
    var cfg := Hundred(minStep);
    if n == 0 {
      es := FloodEdits(cfg, floods);
    } else {
      assert n * minStep == (n - 1) * minStep + minStep;
      var fs := StepEdits(minStep, floods, n - 1);
      OneEdit(cfg, fs, Bytes(n * minStep, 0.0));
      es := fs + [Bytes(n * minStep, 0.0)];
    }
  }

  /** The bound of `EditBound` is the best one, for every step and every number of long flood waits. */
  lemma EditBoundIsReached(minStep: nat, floods: nat) returns (es: seq<Event>)
    requires minStep >= 1
    ensures Hundred(minStep).Valid() && LongFloods(es) == floods
    ensures EditCount(Hundred(minStep), es) == 99 / minStep + 1 + 2 * floods
  {
    hide After, EditCount, LongFloods;
    var n := 99 / minStep;
    assert n * minStep <= 99;
    var fs := StepEdits(minStep, floods, n);
    OneEdit(Hundred(minStep), fs, Bytes(100, 0.0));
    es := fs + [Bytes(100, 0.0)];
  }

  // ------------------------------------------------------------ when the bar is edited

  /** Full percents of the bytes, 100 from the total on. */
  lemma PercentIs(cfg: Settings, bytes: nat)
    requires cfg.Valid()
    ensures var p := Percent(cfg, bytes);
            && (p == 100 <==> bytes >= cfg.total)
            && (p != 100 ==> p * cfg.total <= 100 * bytes < (p + 1) * cfg.total)
  {
    var p, q := Percent(cfg, bytes), bytes * 100 / cfg.total;
    assert bytes * 100 == q * cfg.total + bytes * 100 % cfg.total;
    assert (q + 1) * cfg.total == q * cfg.total + cfg.total;
    if q >= 100 {
      Scaled(q, 100, cfg.total);
    } else {
      Scaled(100, q + 1, cfg.total);
    }
  }

  /** The long flood wait the user was told of is still the last thing he was told. */
  function TellsOfFlood(es: seq<Event>): bool {
    if es == [] then false
    else
      var e := es[|es| - 1];
      match e
      case FloodWait(seconds) => seconds >= 10 || TellsOfFlood(es[..|es| - 1])
      case StartPart(_) => TellsOfFlood(es[..|es| - 1])
      case _ => false
  }

  lemma {:induction false} FloodIsTold(cfg: Settings, es: seq<Event>)
    requires cfg.Valid()
    ensures After(cfg, es).inFlood == TellsOfFlood(es)
  {
    hide Percent, TooSoon;
    if es != [] {
      FloodIsTold(cfg, es[..|es| - 1]);
    }
  }

  /** Bytes of the parts before the current one. */
  function BytesBefore(es: seq<Event>): nat {
    if es == [] then 0
    else if es[|es| - 1].StartPart? then es[|es| - 1].bytesBefore else BytesBefore(es[..|es| - 1])
  }

  lemma {:induction false} BaseIs(cfg: Settings, es: seq<Event>)
    requires cfg.Valid()
    ensures After(cfg, es).base == BytesBefore(es)
  {
    hide Edits;
    if es != [] {
      BaseIs(cfg, es[..|es| - 1]);
    }
  }

  /** A byte count leads to an edit exactly when the user was last told of a flood wait, or it moves
      the bar and either completes it, or moves it by at least `min_step` points and comes at least
      `min_interval` seconds after the edit before. The edit then shows the larger percentage. */
  lemma WhenTheBarMoves(cfg: Settings, es: seq<Event>, done: nat, now: real)
    requires cfg.Valid()
    ensures var b, c := After(cfg, es), After(cfg, es + [Bytes(done, now)]);
            var percent := Percent(cfg, BytesBefore(es) + done);
            var edits := || TellsOfFlood(es)
                         || (percent > b.shown
                             && (percent == 100
                                 || (percent >= b.shown + cfg.minStep
                                     && (b.shownAt.None? || now - b.shownAt.value >= cfg.minInterval))));
            && EditCount(cfg, es + [Bytes(done, now)]) == EditCount(cfg, es) + (if edits then 1 else 0)
            && c.shown == (if edits && percent > b.shown then percent else b.shown)
            && c.shownAt == if edits then Some(now) else b.shownAt
  {
    hide Percent, After, EditCount, BytesBefore, TellsOfFlood;
    FloodIsTold(cfg, es);
    BaseIs(cfg, es);
    OneEdit(cfg, es, Bytes(done, now));
  }
}

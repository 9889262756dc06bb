/** Provider health (providers/health.py): a circuit breaker per provider and platform, and
    the order in which the providers of a platform are tried. */
module ProviderHealth {
  import opened Common

  datatype Settings = Settings(failureThreshold: int, cooldown: int)

  /** A row of the health table; times are seconds. */
  datatype Record = Record(totalAttempts: nat, successes: nat, totalResponseTime: real,
                           consecutiveFailures: nat, disabledUntil: Option<int>)

  datatype Outcome = Success(responseTime: real) | Failure(now: int)

  function OnSuccess(r: Option<Record>, responseTime: real): Record {
    var elapsed := if responseTime > 0.0 then responseTime else 0.0;
    if r.None? then Record(1, 1, elapsed, 0, None)
    else Record(r.value.totalAttempts + 1, r.value.successes + 1, r.value.totalResponseTime + elapsed, 0, None)
  }

  function OnFailure(cfg: Settings, r: Option<Record>, now: int): Record {
    var counted :=
      if r.None? then Record(1, 0, 0.0, 1, None)
      else r.value.(totalAttempts := r.value.totalAttempts + 1, consecutiveFailures := r.value.consecutiveFailures + 1);
    if counted.consecutiveFailures >= cfg.failureThreshold then counted.(disabledUntil := Some(now + cfg.cooldown)) else counted
  }

  function After(cfg: Settings, history: seq<Outcome>): Option<Record> {
    if history == [] then None
    else Some(Next(cfg, After(cfg, history[..|history| - 1]), history[|history| - 1]))
  }

  function Next(cfg: Settings, r: Option<Record>, o: Outcome): Record {
    if o.Success? then OnSuccess(r, o.responseTime) else OnFailure(cfg, r, o.now)
  }

  predicate Suppressed(r: Option<Record>, now: int) {
    r.Some? && r.value.disabledUntil.Some? && r.value.disabledUntil.value > now
  }

  /** Failures at the end of a history. */
  function TrailingFailures(history: seq<Outcome>): nat {
    if history == [] || history[|history| - 1].Success? then 0 else TrailingFailures(history[..|history| - 1]) + 1
  }

  function Successes(history: seq<Outcome>): nat {
    if history == [] then 0
    else Successes(history[..|history| - 1]) + if history[|history| - 1].Success? then 1 else 0
  }

  /** What the successes took, none less than nothing. */
  function TimeOf(history: seq<Outcome>): real {
    if history == [] then 0.0
    else
      var o := history[|history| - 1];
      TimeOf(history[..|history| - 1]) + if o.Success? && o.responseTime > 0.0 then o.responseTime else 0.0
  }

  /** The run of failures that opens the breaker; a threshold below 1 acts like 1. */
  function Needed(cfg: Settings): nat { Max(1, cfg.failureThreshold) }

  lemma {:induction false} RecordIs(cfg: Settings, history: seq<Outcome>)
    ensures var r := After(cfg, history);
            && (r.None? <==> history == [])
            && (r.Some? ==>
                  && r.value.consecutiveFailures == TrailingFailures(history)
                  && r.value.totalAttempts == |history| && r.value.successes == Successes(history)
                  && r.value.totalResponseTime == TimeOf(history)
                  && (r.value.disabledUntil.Some? <==> TrailingFailures(history) >= Needed(cfg))
                  && (r.value.disabledUntil.Some? ==>
                        r.value.disabledUntil.value == history[|history| - 1].now + cfg.cooldown))
  {
    if history != [] {
      RecordIs(cfg, history[..|history| - 1]);
    }
  }

  /** The breaker as it is meant: enough failures in a row, cooldown not over. */
  predicate Open(cfg: Settings, history: seq<Outcome>, now: int) {
    TrailingFailures(history) >= Needed(cfg) && history[|history| - 1].now + cfg.cooldown > now
  }

  /** For every history of a provider: it is suppressed at `now` exactly when its latest run
      of failures is long enough and the cooldown after the last of them is not over. */
  lemma SuppressedIff(cfg: Settings, history: seq<Outcome>, now: int)
    ensures Suppressed(After(cfg, history), now) <==> Open(cfg, history, now)
  {
    RecordIs(cfg, history);
  }

  // ------------------------------------------------------------ the order of trial

  /** Success rate down, average time up, configured position up. */
  datatype SortKey = SortKey(rate: real, avgTime: real, index: nat)

  predicate Before(a: SortKey, b: SortKey) {
    a.rate > b.rate || (a.rate == b.rate && (a.avgTime < b.avgTime || (a.avgTime == b.avgTime && a.index < b.index)))
  }

  /** The position of the last candidate of that name, 0 if there is none. */
  function IndexOf(candidates: seq<string>, name: string): nat {
    if candidates == [] then 0
    else if candidates[|candidates| - 1] == name then |candidates| - 1
    else IndexOf(candidates[..|candidates| - 1], name)
  }

  function Divide(x: real, n: nat): real
    requires n > 0
  {
    x / n as real
  }

  function KeyOf(health: map<string, Record>, candidates: seq<string>, name: string): SortKey {
    var index := IndexOf(candidates, name);
    if name !in health || health[name].totalAttempts == 0 then SortKey(1.0, 0.0, index)
    else
      var r := health[name];
      SortKey(Divide(r.successes as real, r.totalAttempts),
              if r.successes > 0 then Divide(r.totalResponseTime, r.successes) else 999.0, index)
  }

  function RecordOf(health: map<string, Record>, name: string): Option<Record> {
    if name in health then Some(health[name]) else None
  }

  function Active(health: map<string, Record>, candidates: seq<string>, now: int): seq<string> {
    if candidates == [] then []
    else
      var last := candidates[|candidates| - 1];
      Active(health, candidates[..|candidates| - 1], now) + if Suppressed(RecordOf(health, last), now) then [] else [last]
  }

  /** `list.sort(key=...)`: insertion from the left, equal keys keep their order. */
  function Insert<T>(s: seq<T>, name: T, key: T -> SortKey): seq<T> {
    if s == [] || !Before(key(name), key(s[|s| - 1])) then s + [name]
    else Insert(s[..|s| - 1], name, key) + [s[|s| - 1]]
  }

  function Sorted<T>(s: seq<T>, key: T -> SortKey): seq<T> {
    if s == [] then [] else Insert(Sorted(s[..|s| - 1], key), s[|s| - 1], key)
  }

  function OrderFor(health: map<string, Record>, candidates: seq<string>, now: int): seq<string> {
    Sorted(Active(health, candidates, now), name => KeyOf(health, candidates, name))
  }

  ghost predicate Ascending<T>(s: seq<T>, key: T -> SortKey) {
    forall i, j :: 0 <= i < j < |s| ==> !Before(key(s[j]), key(s[i]))
  }

  /** No two names of `s` have the same key. */
  ghost predicate DistinctKeys<T>(s: seq<T>, key: T -> SortKey) {
    forall i, j :: 0 <= i < j < |s| ==> key(s[i]) != key(s[j])
  }

  lemma {:induction false} InsertAdds<T>(s: seq<T>, name: T, key: T -> SortKey)
    ensures multiset(Insert(s, name, key)) == multiset(s) + multiset{name}
  {
    if s != [] && Before(key(name), key(s[|s| - 1])) {
      InsertAdds(s[..|s| - 1], name, key);
      assert s == s[..|s| - 1] + [s[|s| - 1]];
    }
  }

  lemma InsertMembers<T>(s: seq<T>, name: T, key: T -> SortKey)
    ensures forall x :: x in Insert(s, name, key) ==> x in s || x == name
  {
    hide Insert;
    InsertAdds(s, name, key);
    var r := Insert(s, name, key);
    forall x | x in r ensures x in s || x == name {
      assert x in multiset(r);
    }
  }

  lemma Asymmetric(a: SortKey, b: SortKey)
    ensures Before(a, b) ==> !Before(b, a)
  {
  }

  lemma AddLast<T>(s: seq<T>, last: T, key: T -> SortKey)
    requires Ascending(s, key) && forall x :: x in s ==> !Before(key(last), key(x))
    ensures Ascending(s + [last], key)
  {
    hide Before;
  }

  lemma BelowLast<T>(s: seq<T>, name: T, key: T -> SortKey)
    requires s != [] && Ascending(s, key) && !Before(key(name), key(s[|s| - 1]))
    ensures forall x :: x in s ==> !Before(key(name), key(x))
  {
  }

  lemma {:induction false} InsertIs<T>(s: seq<T>, name: T, key: T -> SortKey)
    requires Ascending(s, key)
    ensures Ascending(Insert(s, name, key), key)
  {
    hide Before;
    if s == [] {
    } else if !Before(key(name), key(s[|s| - 1])) {
      BelowLast(s, name, key);
      AddLast(s, name, key);
    } else {
      var init, last := s[..|s| - 1], s[|s| - 1];
      InsertIs(init, name, key);
      InsertMembers(init, name, key);
      Asymmetric(key(name), key(last));
      forall x | x in init ensures !Before(key(last), key(x)) {
        var i :| 0 <= i < |init| && init[i] == x;
        assert s[i] == x;
      }
      AddLast(Insert(init, name, key), last, key);
    }
  }

  lemma {:induction false} SortedIs<T>(s: seq<T>, key: T -> SortKey)
    ensures Ascending(Sorted(s, key), key) && multiset(Sorted(s, key)) == multiset(s)
  {
    if s != [] {
      SortedIs(s[..|s| - 1], key);
      InsertIs(Sorted(s[..|s| - 1], key), s[|s| - 1], key);
      InsertAdds(Sorted(s[..|s| - 1], key), s[|s| - 1], key);
      assert s == s[..|s| - 1] + [s[|s| - 1]];
    }
  }

  lemma {:induction false} ActiveMembers(health: map<string, Record>, candidates: seq<string>, now: int, name: string)
    ensures name in Active(health, candidates, now) <==> name in candidates && !Suppressed(RecordOf(health, name), now)
  {
    hide Suppressed, RecordOf;
    if candidates != [] {
      var init, last := candidates[..|candidates| - 1], candidates[|candidates| - 1];
      ActiveMembers(health, init, now, name);
      assert candidates == init + [last];
    }
  }

  lemma {:induction false} ActiveDistinct(health: map<string, Record>, candidates: seq<string>, now: int)
    requires Distinct(candidates)
    ensures Distinct(Active(health, candidates, now))
  {
    hide Suppressed, RecordOf;
    if candidates != [] {
      var init, last := candidates[..|candidates| - 1], candidates[|candidates| - 1];
      ActiveDistinct(health, init, now);
      ActiveMembers(health, init, now, last);
      assert last !in init;
    }
  }

  lemma {:induction false} IndexIs(candidates: seq<string>, name: string)
    requires name in candidates
    ensures IndexOf(candidates, name) < |candidates| && candidates[IndexOf(candidates, name)] == name
  {
    if candidates[|candidates| - 1] != name {
      IndexIs(candidates[..|candidates| - 1], name);
    }
  }

  ghost predicate Permutation<T>(s: seq<T>, t: seq<T>) { multiset(s) == multiset(t) }

  /** With distinct names, the order is the one arrangement of the unsuppressed candidates by
      success rate, then average time, then configured position: nothing is lost, and any
      other arrangement by these keys is the same one. */
  lemma OrderForIs(health: map<string, Record>, candidates: seq<string>, now: int, other: seq<string>)
    requires Distinct(candidates)
    ensures var key := (name: string) => KeyOf(health, candidates, name);
            var order := OrderFor(health, candidates, now);
            && (forall name :: name in order <==> name in candidates && !Suppressed(RecordOf(health, name), now))
            && Distinct(order) && Ascending(order, key)
            && (Permutation(other, order) && Ascending(other, key) ==> other == order)
  {
    hide KeyOf;
    var key := (name: string) => KeyOf(health, candidates, name);
    var active := Active(health, candidates, now);
    var order := OrderFor(health, candidates, now);
    forall name {
      ActiveMembers(health, candidates, now, name);
    }
    ActiveDistinct(health, candidates, now);
    SortedIs(active, key);
    SameMembers(order, active);
    DistinctNames(order, active);
    KeysDiffer(health, candidates, order);
    if Permutation(other, order) && Ascending(other, key) {
      OneOrder(other, order, key);
    }
  }

  /** The share of attempts that succeeded; an untried provider counts as perfect. */
  function SuccessRate(history: seq<Outcome>): real {
    if history == [] then 1.0 else Successes(history) as real / |history| as real
  }

  /** Seconds a success took on average: 0 untried, 999 without a success. */
  function AverageTime(history: seq<Outcome>): real {
    if history == [] then 0.0 else if Successes(history) == 0 then 999.0 else TimeOf(history) / Successes(history) as real
  }

  lemma KeyIs(cfg: Settings, health: map<string, Record>, candidates: seq<string>, name: string, history: seq<Outcome>)
    requires RecordOf(health, name) == After(cfg, history)
    ensures KeyOf(health, candidates, name) == SortKey(SuccessRate(history), AverageTime(history), IndexOf(candidates, name))
  {
    hide After;
    RecordIs(cfg, history);
  }

  lemma NotAfter(a: SortKey, b: SortKey)
    requires !Before(b, a)
    ensures a.rate >= b.rate && (a.rate == b.rate ==> a.avgTime <= b.avgTime)
    ensures a.rate == b.rate && a.avgTime == b.avgTime ==> a.index <= b.index
  {
  }

  /** Over histories: of two providers in the order, the earlier one has at least the success rate
      of the later one; on equal rates its successes took no longer on average, and on equal times it
      is configured earlier. */
  lemma BetterComesFirst(cfg: Settings, health: map<string, Record>, candidates: seq<string>, now: int,
                         history: map<string, seq<Outcome>>, i: nat, j: nat)
    requires Distinct(candidates) && forall name :: name in candidates ==> name in history && RecordOf(health, name) == After(cfg, history[name])
    requires i < j < |OrderFor(health, candidates, now)|
    ensures var order := OrderFor(health, candidates, now);
            order[i] in history && order[j] in history &&
            var a, b := history[order[i]], history[order[j]];
            && SuccessRate(a) >= SuccessRate(b)
            && (SuccessRate(a) == SuccessRate(b) ==> AverageTime(a) <= AverageTime(b))
            && (SuccessRate(a) == SuccessRate(b) && AverageTime(a) == AverageTime(b) ==>
                  exists p: nat, q: nat :: p < q < |candidates| && candidates[p] == order[i] && candidates[q] == order[j])
  {
    hide KeyOf, OrderFor, After, Suppressed, RecordOf, SuccessRate, AverageTime, Before;
    var order := OrderFor(health, candidates, now);
    OrderForIs(health, candidates, now, order);
    assert order[i] in candidates && order[j] in candidates;
    KeyIs(cfg, health, candidates, order[i], history[order[i]]);
    KeyIs(cfg, health, candidates, order[j], history[order[j]]);
    NotAfter(KeyOf(health, candidates, order[i]), KeyOf(health, candidates, order[j]));
    IndexIs(candidates, order[i]);
    IndexIs(candidates, order[j]);
  }

  lemma SameMembers<T>(s: seq<T>, t: seq<T>)
    requires multiset(s) == multiset(t)
    ensures forall name :: name in s <==> name in t
  {
    forall name ensures name in s <==> name in t {
      assert name in s <==> name in multiset(s);
      assert name in t <==> name in multiset(t);
    }
  }

  lemma {:induction false} CountsOfDistinct<T>(s: seq<T>, x: T)
    requires Distinct(s)
    ensures multiset(s)[x] <= 1
  {
    if s != [] {
      var init, last := s[..|s| - 1], s[|s| - 1];
      CountsOfDistinct(init, x);
      assert s == init + [last];
      assert last !in init;
    }
  }

  lemma {:induction false} DistinctByCounts<T>(s: seq<T>)
    requires forall x :: multiset(s)[x] <= 1
    ensures Distinct(s)
  {
    if s != [] {
      var init, last := s[..|s| - 1], s[|s| - 1];
      assert s == init + [last];
      assert multiset(s) == multiset(init) + multiset{last};
      forall x ensures multiset(init)[x] <= 1 {
        assert multiset(s)[x] == multiset(init)[x] + multiset{last}[x];
      }
      DistinctByCounts(init);
      assert multiset(s)[last] == multiset(init)[last] + 1;
      assert last !in multiset(init);
    }
  }

  lemma DistinctNames<T>(s: seq<T>, t: seq<T>)
    requires multiset(s) == multiset(t) && Distinct(t)
    ensures Distinct(s)
  {
    forall x ensures multiset(s)[x] <= 1 {
      CountsOfDistinct(t, x);
    }
    DistinctByCounts(s);
  }

  lemma KeysDiffer(health: map<string, Record>, candidates: seq<string>, s: seq<string>)
    requires Distinct(s) && forall name :: name in s ==> name in candidates
    ensures DistinctKeys(s, name => KeyOf(health, candidates, name))
  {
    forall i, j | 0 <= i < j < |s| ensures KeyOf(health, candidates, s[i]) != KeyOf(health, candidates, s[j]) {
      IndexIs(candidates, s[i]);
      IndexIs(candidates, s[j]);
      IndexInKey(health, candidates, s[i]);
      IndexInKey(health, candidates, s[j]);
    }
  }

  lemma IndexInKey(health: map<string, Record>, candidates: seq<string>, name: string)
    ensures KeyOf(health, candidates, name).index == IndexOf(candidates, name)
  {
  }

  lemma SameLast<T>(s: seq<T>, t: seq<T>, key: T -> SortKey)
    requires s != [] && t != [] && s[|s| - 1] in t && t[|t| - 1] in s
    requires Ascending(s, key) && Ascending(t, key) && DistinctKeys(t, key)
    ensures s[|s| - 1] == t[|t| - 1]
  {
    hide Before;
    var a, b := s[|s| - 1], t[|t| - 1];
    var i :| 0 <= i < |t| && t[i] == a;
    var j :| 0 <= j < |s| && s[j] == b;
    Irreflexive(key(a));
    assert !Before(key(b), key(a));
    assert !Before(key(a), key(b));
    Total(key(a), key(b));
  }

  lemma Irreflexive(a: SortKey)
    ensures !Before(a, a)
  {
  }

  lemma LastOff<T>(s: seq<T>)
    requires s != []
    ensures multiset(s) == multiset(s[..|s| - 1]) + multiset{s[|s| - 1]}
  {
    assert s == s[..|s| - 1] + [s[|s| - 1]];
  }

  lemma SameWithout<T>(m: multiset<T>, a: multiset<T>, b: multiset<T>, x: T)
    requires m == a + multiset{x} && m == b + multiset{x}
    ensures a == b
  {
    assert a == m - multiset{x} && b == m - multiset{x};
  }

  lemma WithoutLast<T>(s: seq<T>, t: seq<T>)
    requires multiset(s) == multiset(t) && s != [] && t != [] && s[|s| - 1] == t[|t| - 1]
    ensures multiset(s[..|s| - 1]) == multiset(t[..|t| - 1])
  {
    LastOff(s);
    LastOff(t);
    SameWithout(multiset(s), multiset(s[..|s| - 1]), multiset(t[..|t| - 1]), s[|s| - 1]);
  }

  lemma PrefixesToo<T>(s: seq<T>, key: T -> SortKey)
    requires s != []
    ensures Ascending(s, key) ==> Ascending(s[..|s| - 1], key)
    ensures DistinctKeys(s, key) ==> DistinctKeys(s[..|s| - 1], key)
  {
  }

  /** Two ascending arrangements of the same names agree when no keys tie. */
  lemma {:induction false} OneOrder<T>(s: seq<T>, t: seq<T>, key: T -> SortKey)
    requires multiset(s) == multiset(t) && Ascending(s, key) && Ascending(t, key) && DistinctKeys(t, key)
    ensures s == t
  {
    hide Ascending, DistinctKeys;
    SameMembers(s, t);
    assert |s| == |multiset(s)| == |multiset(t)| == |t|;
    if s != [] {
      assert s[|s| - 1] in s && t[|t| - 1] in t;
      SameLast(s, t, key);
      WithoutLast(s, t);
      PrefixesToo(s, key);
      PrefixesToo(t, key);
      OneOrder(s[..|s| - 1], t[..|t| - 1], key);
      assert s == s[..|s| - 1] + [s[|s| - 1]];
    }
  }

  lemma Total(a: SortKey, b: SortKey)
    ensures a == b || Before(a, b) || Before(b, a)
  {
  }

  // ------------------------------------------------------------ the tracker as an object

  datatype Slot = Slot(provider: string, platform: string)

  class ProviderHealthTracker {
    const cfg: Settings
    var table: map<Slot, Record>
    ghost var histories: map<Slot, seq<Outcome>>

    /** Every row is what its provider's history makes of it. */
    ghost predicate Valid() reads this {
      && table.Keys == histories.Keys
      && forall p :: p in table ==> After(cfg, histories[p]) == Some(table[p])
    }

    ghost function History(p: Slot): seq<Outcome> reads this {
      if p in histories then histories[p] else []
    }

    constructor (cfg: Settings)
      ensures this.cfg == cfg && Valid() && table == map[] && histories == map[]
    {
      this.cfg, table, histories := cfg, map[], map[];
    }

    method RecordSuccess(p: Slot, responseTime: real)
      requires Valid()
      modifies this
      ensures Valid() && histories == old(histories)[p := old(History(p)) + [Success(responseTime)]]
    {
      hide After;
      var elapsed := if responseTime > 0.0 then responseTime else 0.0;
      NothingYet(cfg);
      Extended(cfg, History(p), Success(responseTime));
      if p !in table {
        table := table[p := Record(1, 1, elapsed, 0, None)];
      } else {
        var r := table[p];
        r := r.(totalAttempts := r.totalAttempts + 1, successes := r.successes + 1,
                totalResponseTime := r.totalResponseTime + elapsed);
        r := r.(consecutiveFailures := 0, disabledUntil := None);
        table := table[p := r];
      }
      histories := histories[p := History(p) + [Success(responseTime)]];
    }

    method RecordFailure(p: Slot, now: int)
      requires Valid()
      modifies this
      ensures Valid() && histories == old(histories)[p := old(History(p)) + [Failure(now)]]
    {
      Extended(cfg, History(p), Failure(now));
      var r := Record(1, 0, 0.0, 1, None);
      if p in table {
        r := table[p];
        r := r.(totalAttempts := r.totalAttempts + 1, consecutiveFailures := r.consecutiveFailures + 1);
      }
      if r.consecutiveFailures >= cfg.failureThreshold {
        r := r.(disabledUntil := Some(now + cfg.cooldown));
      }
      table := table[p := r];
      histories := histories[p := History(p) + [Failure(now)]];
    }

    method IsSuppressed(p: Slot, now: int) returns (suppressed: bool)
      requires Valid()
      ensures suppressed <==> Open(cfg, History(p), now)
    {
      SuppressedIff(cfg, History(p), now);
      if p !in table || table[p].disabledUntil.None? {
        return false;
      }
      suppressed := table[p].disabledUntil.value > now;
    }

    /** The rows of one platform, by provider. */
    function HealthOn(platform: string, candidates: seq<string>): map<string, Record> reads this {
      map name | name in candidates && Slot(name, platform) in table :: table[Slot(name, platform)]
    }

    method Order(platform: string, candidates: seq<string>, now: int) returns (order: seq<string>)
      requires Valid()
      ensures order == OrderFor(HealthOn(platform, candidates), candidates, now)
      ensures Distinct(candidates) ==> Distinct(order)
      ensures Distinct(candidates) ==>
                forall name :: name in order <==> name in candidates && !Open(cfg, History(Slot(name, platform)), now)
      ensures Distinct(candidates) ==> forall i: nat, j: nat :: i < j < |order| ==>
                var a, b := History(Slot(order[i], platform)), History(Slot(order[j], platform));
                && SuccessRate(a) >= SuccessRate(b)
                && (SuccessRate(a) == SuccessRate(b) ==> AverageTime(a) <= AverageTime(b))
                && (SuccessRate(a) == SuccessRate(b) && AverageTime(a) == AverageTime(b) ==>
                      exists p: nat, q: nat :: p < q < |candidates| && candidates[p] == order[i] && candidates[q] == order[j])
    {
      hide KeyOf, OrderFor, Open, After, Suppressed, Active, SuccessRate, AverageTime;
      var health := HealthOn(platform, candidates);
      var active: seq<string> := [];
      NoneActive(health, now);
      for i := 0 to |candidates|
        invariant active == Active(health, candidates[..i], now)
      {
        OneMoreActive(health, candidates, i, now);
        if !Suppressed(RecordOf(health, candidates[i]), now) {
          active := active + [candidates[i]];
        }
      }
      assert candidates[..|candidates|] == candidates;
      order := Sorted(active, name => KeyOf(health, candidates, name));
      OrderIs(health, candidates, now);
      if Distinct(candidates) {
        OrderForIs(health, candidates, now, order);
        forall name | name in candidates
          ensures Suppressed(RecordOf(health, name), now) <==> Open(cfg, History(Slot(name, platform)), now)
        {
          SuppressedIff(cfg, History(Slot(name, platform)), now);
          NoHistory(cfg);
        }
        ghost var history := map name | name in candidates :: History(Slot(name, platform));
        NoHistory(cfg);
        forall i: nat, j: nat | i < j < |order| {
          BetterComesFirst(cfg, health, candidates, now, history, i, j);
        }
      }
    }
  }

  lemma NoHistory(cfg: Settings)
    ensures After(cfg, []) == None
  {
  }

  lemma NoneActive(health: map<string, Record>, now: int)
    ensures Active(health, [], now) == []
  {
  }

  lemma OneMoreActive(health: map<string, Record>, candidates: seq<string>, i: nat, now: int)
    requires i < |candidates|
    ensures Active(health, candidates[..i + 1], now) == Active(health, candidates[..i], now)
              + if Suppressed(RecordOf(health, candidates[i]), now) then [] else [candidates[i]]
  {
    assert candidates[..i + 1][..i] == candidates[..i];
  }

  lemma OrderIs(health: map<string, Record>, candidates: seq<string>, now: int)
    ensures OrderFor(health, candidates, now) == Sorted(Active(health, candidates, now), name => KeyOf(health, candidates, name))
  {
  }

  lemma NothingYet(cfg: Settings)
    ensures After(cfg, []) == None
  {
  }

  lemma Extended(cfg: Settings, history: seq<Outcome>, o: Outcome)
    ensures After(cfg, history + [o]) == Some(Next(cfg, After(cfg, history), o))
  {
    assert (history + [o])[..|history|] == history;
  }
}

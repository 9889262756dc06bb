/** The byte budget all fetches of one download share, under any interleaving of
    the worker threads that charge it and write to disk. */
module ByteCounter {
  import opened Common

  /** `_ByteCounter`. The lock makes `Add` one atomic step. */
  class Counter {
    var total: nat
    const maxSize: Option<nat>

    constructor (maxSize: Option<nat>)
      ensures this.maxSize == maxSize && total == 0
    {
      this.maxSize := maxSize;
      total := 0;
    }

    /** Counts first, then raises if the total is over the limit. */
    method Add(n: nat) returns (raised: bool)
      modifies this
      ensures total == old(total) + n
      ensures raised == OverLimit(total, maxSize)
    {
      total := total + n;
      raised := maxSize.Some? && total > maxSize.value;
    }
  }

  predicate OverLimit(total: nat, maxSize: Option<nat>) { maxSize.Some? && total > maxSize.value }

  /** A fetcher between two steps: with nothing at hand, with charged bytes it may write, or
      out of one fetch with an error. */
  datatype Worker = Idle | Granted(chunk: nat) | Aborted

  datatype State = State(total: nat, workers: seq<Worker>, written: nat, raised: bool)

  /** A worker charges a chunk it will write (a segment's chunk goes out at once, a key is
      gathered first) or only reads (playlists), writes what it has, fails for another reason,
      or takes up its next fetch. */
  datatype Event =
    | Charge(worker: nat, n: nat) | ChargeOnly(worker: nat, n: nat) | Write(worker: nat)
    | Fail(worker: nat) | Next(worker: nat)

  predicate Enabled(s: State, e: Event) {
    e.worker < |s.workers| &&
    match e
    case Charge(w, _) => !s.workers[w].Aborted?
    case ChargeOnly(w, _) => s.workers[w].Idle?
    case Write(w) => s.workers[w].Granted?
    case Fail(w) => !s.workers[w].Aborted?
    case Next(w) => s.workers[w].Aborted?
  }

  function AtHand(w: Worker): nat { if w.Granted? then w.chunk else 0 }

  function Apply(maxSize: Option<nat>, s: State, e: Event): State
    requires Enabled(s, e)
  {
    match e
    case Charge(w, n) =>
      var over := OverLimit(s.total + n, maxSize);
      s.(total := s.total + n, workers := s.workers[w := if over then Aborted else Granted(AtHand(s.workers[w]) + n)],
          raised := s.raised || over)
    case ChargeOnly(w, n) =>
      var over := OverLimit(s.total + n, maxSize);
      s.(total := s.total + n, workers := s.workers[w := if over then Aborted else Idle], raised := s.raised || over)
    case Write(w) =>
      s.(workers := s.workers[w := Idle], written := s.written + s.workers[w].chunk)
    case Fail(w) =>
      s.(workers := s.workers[w := Aborted])
    case Next(w) =>
      s.(workers := s.workers[w := Idle])
  }

  ghost predicate Runs(maxSize: Option<nat>, s: State, es: seq<Event>, t: State)
    decreases |es|
  {
    if es == [] then s == t
    else
      var u, e := es[..|es| - 1], es[|es| - 1];
      exists mid :: Runs(maxSize, s, u, mid) && Enabled(mid, e) && t == Apply(maxSize, mid, e)
  }

  function Init(workers: nat): State { State(0, seq(workers, _ => Idle), 0, false) }

  /** Bytes granted to workers and not yet written. */
  function Outstanding(workers: seq<Worker>): nat {
    if workers == [] then 0
    else
      Outstanding(workers[..|workers| - 1]) + AtHand(workers[|workers| - 1])
  }

  lemma {:induction false} OutstandingUpdate(workers: seq<Worker>, w: nat, new': Worker)
    requires w < |workers|
    ensures Outstanding(workers[w := new']) ==
            Outstanding(workers) - Outstanding([workers[w]]) + Outstanding([new'])
  {
    var last := |workers| - 1;
    assert [workers[w]][..0] == [] && [new'][..0] == [];
    if w == last {
      assert workers[w := new'][..last] == workers[..last];
    } else {
      assert workers[w := new'][..last] == workers[..last][w := new'];
      OutstandingUpdate(workers[..last], w, new');
    }
  }

  ghost predicate Inv(maxSize: Option<nat>, s: State) {
    && s.written + Outstanding(s.workers) <= s.total
    && (maxSize.Some? ==> s.written + Outstanding(s.workers) <= maxSize.value)
    && (s.raised <==> OverLimit(s.total, maxSize))
  }

  lemma StepInv(maxSize: Option<nat>, s: State, e: Event)
    requires Inv(maxSize, s) && Enabled(s, e)
    ensures Inv(maxSize, Apply(maxSize, s, e))
  {
    var t := Apply(maxSize, s, e);
    OutstandingUpdate(s.workers, e.worker, t.workers[e.worker]);
    assert [s.workers[e.worker]][..0] == [] && [t.workers[e.worker]][..0] == [];
    assert t.workers == s.workers[e.worker := t.workers[e.worker]];
  }

  lemma {:induction false} NothingOutstanding(n: nat)
    ensures Outstanding(Init(n).workers) == 0
  {
    if n > 0 {
      NothingOutstanding(n - 1);
      assert Init(n).workers[..n - 1] == Init(n - 1).workers;
    }
  }

  lemma {:induction false} RunInv(maxSize: Option<nat>, workers: nat, es: seq<Event>, t: State)
    requires Runs(maxSize, Init(workers), es, t)
    ensures Inv(maxSize, t)
    decreases |es|
  {
    if es == [] {
      NothingOutstanding(workers);
    } else {
      var u, e := es[..|es| - 1], es[|es| - 1];
      var mid :| Runs(maxSize, Init(workers), u, mid) && Enabled(mid, e) && t == Apply(maxSize, mid, e);
      RunInv(maxSize, workers, u, mid);
      StepInv(maxSize, mid, e);
    }
  }

  /** However the workers interleave, they never write more than the limit, and once
      one charge failed every later charge fails. */
  lemma BudgetHolds(maxSize: Option<nat>, workers: nat, es: seq<Event>, t: State, e: Event)
    requires Runs(maxSize, Init(workers), es, t) && Enabled(t, e)
    ensures maxSize.Some? ==> t.written <= maxSize.value
    ensures t.raised && (e.Charge? || e.ChargeOnly?) ==> Apply(maxSize, t, e).workers[e.worker] == Aborted
    ensures !t.raised ==> maxSize.Some? ==> t.total <= maxSize.value
  {
    RunInv(maxSize, workers, es, t);
  }

  /** All bytes charged so far, by whomever. */
  ghost function Charged(es: seq<Event>): nat {
    if es == [] then 0
    else
      var e := es[|es| - 1];
      Charged(es[..|es| - 1]) + if e.Charge? || e.ChargeOnly? then e.n else 0
  }

  lemma {:induction false} TotalIsCharged(maxSize: Option<nat>, workers: nat, es: seq<Event>, t: State)
    requires Runs(maxSize, Init(workers), es, t)
    ensures t.total == Charged(es)
    decreases |es|
  {
    if es != [] {
      var u, e := es[..|es| - 1], es[|es| - 1];
      var mid :| Runs(maxSize, Init(workers), u, mid) && Enabled(mid, e) && t == Apply(maxSize, mid, e);
      TotalIsCharged(maxSize, workers, u, mid);
    }
  }

  /** A worker is refused exactly when all bytes charged so far, its own included, are more than the
      limit, and then nothing it has at hand can be written; otherwise it may write all of it. */
  lemma WhoIsRefused(maxSize: Option<nat>, workers: nat, es: seq<Event>, s: State, w: nat, n: nat)
    requires Runs(maxSize, Init(workers), es, s) && Enabled(s, Charge(w, n))
    ensures var over := maxSize.Some? && Charged(es) + n > maxSize.value;
            var before := if s.workers[w].Granted? then s.workers[w].chunk else 0;
            Apply(maxSize, s, Charge(w, n)).workers[w] == if over then Aborted else Granted(before + n)
    ensures s.workers[w].Idle? ==>
              (Apply(maxSize, s, ChargeOnly(w, n)).workers[w] == Aborted <==> maxSize.Some? && Charged(es) + n > maxSize.value)
  {
    TotalIsCharged(maxSize, workers, es, s);
  }
}

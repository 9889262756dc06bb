/** The cancellation token (engines/base.py): threads race between setting the flag and
    registering callbacks. The flag is not guarded by the lock; the callback list is. */
module Cancellation {
  import opened Common

  /** A callback, named by the `on_cancel` call that brought it. */
  type Callback = nat

  // ------------------------------------------------------------ the token's own state

  /** `ran` logs the callbacks that were invoked, in order. */
  datatype Token = Token(flag: bool, callbacks: seq<Callback>, ran: seq<Callback>)

  function Flagged(k: Token): Token { k.(flag := true) }

  /** The copy-and-clear under the lock. */
  function Taken(k: Token): Token { k.(callbacks := []) }

  /** The end of the locked block of `on_cancel`. */
  function Stored(k: Token, cb: Callback, seen: bool): Token {
    if seen then k else k.(callbacks := k.callbacks + [cb])
  }

  function Invoked(k: Token, cb: Callback): Token { k.(ran := k.ran + [cb]) }

  /** `CancellationToken`, one method per atomic section and the two calls made of them. */
  class CancellationToken {
    var flag: bool
    var callbacks: seq<Callback>
    var ran: seq<Callback>

    function View(): Token reads this { Token(flag, callbacks, ran) }

    constructor ()
      ensures View() == Token(false, [], [])
    {
      flag, callbacks, ran := false, [], [];
    }

    method Flag()
      modifies this
      ensures View() == Flagged(old(View()))
    {
      flag := true;
    }

    method Take() returns (cbs: seq<Callback>)
      modifies this
      ensures View() == Taken(old(View())) && cbs == old(callbacks)
    {
      cbs := callbacks;
      callbacks := [];
    }

    method Store(cb: Callback, seen: bool)
      modifies this
      ensures View() == Stored(old(View()), cb, seen)
    {
      if !seen {
        callbacks := callbacks + [cb];
      }
    }

    /** A callback that raises is logged by the caller and counts as run. */
    method Invoke(cb: Callback)
      modifies this
      ensures View() == Invoked(old(View()), cb)
    {
      ran := ran + [cb];
    }

    method Set()
      modifies this
      ensures View() == Token(true, [], old(ran) + old(callbacks))
    {
      Flag();
      var cbs := Take();
      for i := 0 to |cbs|
        invariant View() == Token(true, [], old(ran) + cbs[..i])
      {
        Invoke(cbs[i]);
        assert cbs[..i + 1] == cbs[..i] + [cbs[i]];
      }
      assert cbs[..|cbs|] == cbs;
    }

    method OnCancel(cb: Callback)
      modifies this
      ensures View() == if old(flag) then Invoked(old(View()), cb) else Stored(old(View()), cb, false)
    {
      var alreadySet := flag;
      Store(cb, alreadySet);
      if alreadySet {
        Invoke(cb);
      }
    }
  }

  // ------------------------------------------------------------ threads

  /** Where a call is. `Running` holds the copied callbacks still to invoke. */
  datatype Pc =
    | SetCalled | SetFlagged | Running(todo: seq<Callback>) | SetReturned
    | RegCalled | RegLocked | RegSaw(seen: bool) | RegMustRun | RegReturned

  datatype State = State(token: Token, holder: Option<nat>, pcs: seq<Pc>)

  datatype Call = Set | OnCancel

  function FirstPc(c: Call): Pc { if c.Set? then SetCalled else RegCalled }

  /** Any number of calls, each in a thread of its own that may start at any time. */
  function Init(calls: seq<Call>): State {
    State(Token(false, [], []), None, seq(|calls|, i requires 0 <= i < |calls| => FirstPc(calls[i])))
  }

  /** The next step of thread `i` is always determined by where it is. */
  predicate Enabled(s: State, i: nat) {
    i < |s.pcs| &&
    match s.pcs[i]
    case SetFlagged => s.holder.None?
    case RegCalled => s.holder.None?
    case SetReturned => false
    case RegReturned => false
    case _ => true
  }

  function Goes(s: State, i: nat, k: Token, holder: Option<nat>, pc: Pc): State
    requires i < |s.pcs|
  {
    State(k, holder, s.pcs[i := pc])
  }

  function Apply(s: State, i: nat): State
    requires Enabled(s, i)
  {
    match s.pcs[i]
    case SetCalled => Goes(s, i, Flagged(s.token), s.holder, SetFlagged)
    case SetFlagged => Goes(s, i, Taken(s.token), s.holder, Running(s.token.callbacks))
    case Running(todo) =>
      if todo == [] then Goes(s, i, s.token, s.holder, SetReturned)
      else Goes(s, i, Invoked(s.token, todo[0]), s.holder, Running(todo[1..]))
    case RegCalled => Goes(s, i, s.token, Some(i), RegLocked)
    case RegLocked => Goes(s, i, s.token, s.holder, RegSaw(s.token.flag))
    case RegSaw(seen) =>
      Goes(s, i, Stored(s.token, i, seen), None, if seen then RegMustRun else RegReturned)
    case RegMustRun => Goes(s, i, Invoked(s.token, i), s.holder, RegReturned)
  }

  ghost predicate Runs(s: State, es: seq<nat>, t: State)
    decreases |es|
  {
    if es == [] then s == t
    else
      var u, i := es[..|es| - 1], es[|es| - 1];
      exists mid :: Runs(s, u, mid) && Enabled(mid, i) && t == Apply(mid, i)
  }

  // ------------------------------------------------------------ where each callback is

  function Todo(pc: Pc): multiset<Callback> { if pc.Running? then multiset(pc.todo) else multiset{} }

  /** Callbacks copied by some `set` and not invoked yet. */
  function InFlight(pcs: seq<Pc>): multiset<Callback> {
    if pcs == [] then multiset{} else InFlight(pcs[..|pcs| - 1]) + Todo(pcs[|pcs| - 1])
  }

  function Placed(s: State): multiset<Callback> {
    multiset(s.token.callbacks) + InFlight(s.pcs) + multiset(s.token.ran)
  }

  lemma Regroup<T>(a: multiset<T>, b: multiset<T>, last: multiset<T>, was: multiset<T>, now: multiset<T>)
    requires a + was == b + now
    ensures a + last + was == b + last + now
  {
    assert a + last + was == (a + was) + last;
    assert b + last + now == (b + now) + last;
  }

  lemma {:induction false} InFlightUpdate(pcs: seq<Pc>, i: nat, pc: Pc)
    requires i < |pcs|
    ensures InFlight(pcs[i := pc]) + Todo(pcs[i]) == InFlight(pcs) + Todo(pc)
  {
    hide Todo;
    var last := |pcs| - 1;
    if i == last {
      assert pcs[i := pc][..last] == pcs[..last];
    } else {
      assert pcs[i := pc][..last] == pcs[..last][i := pc];
      InFlightUpdate(pcs[..last], i, pc);
      Regroup(InFlight(pcs[..last][i := pc]), InFlight(pcs[..last]), Todo(pcs[last]), Todo(pcs[i]), Todo(pc));
    }
  }

  lemma InFlightKept(pcs: seq<Pc>, i: nat, pc: Pc)
    requires i < |pcs| && Todo(pcs[i]) == multiset{} == Todo(pc)
    ensures InFlight(pcs[i := pc]) == InFlight(pcs)
  {
    hide InFlight;
    InFlightUpdate(pcs, i, pc);
    assert InFlight(pcs) + multiset{} == InFlight(pcs);
  }

  /** A registration has been stored, handed over or invoked once its call got that far. */
  predicate Landed(pcs: seq<Pc>, r: nat) { r < |pcs| && pcs[r].RegReturned? }

  ghost predicate OncePlaced(s: State) {
    forall r: nat :: Placed(s)[r] == if Landed(s.pcs, r) then 1 else 0
  }

  predicate InLock(pc: Pc) { pc.RegLocked? || pc.RegSaw? }

  ghost predicate LockIsHeld(s: State) {
    forall i :: 0 <= i < |s.pcs| ==> (InLock(s.pcs[i]) <==> s.holder == Some(i))
  }

  predicate HolderExists(s: State) { s.holder.Some? ==> s.holder.value < |s.pcs| }

  /** Steps only a set token allows. */
  predicate NeedsFlag(pc: Pc) {
    pc.SetFlagged? || pc.Running? || pc.SetReturned? || pc.RegMustRun? || (pc.RegSaw? && pc.seen)
  }

  ghost predicate FlagFirst(s: State) {
    (forall i :: 0 <= i < |s.pcs| && NeedsFlag(s.pcs[i]) ==> s.token.flag) && (s.token.ran != [] ==> s.token.flag)
  }

  ghost predicate SomeSetWillTake(s: State) { exists i :: 0 <= i < |s.pcs| && s.pcs[i].SetFlagged? }

  ghost predicate SomeMissedTheFlag(s: State) { exists i :: 0 <= i < |s.pcs| && s.pcs[i] == RegSaw(false) }

  /** A callback that the flag did not stop from being stored is always followed by a
      `set` call that still has to take the list. */
  ghost predicate NoneForgotten(s: State) {
    s.token.flag && (s.token.callbacks != [] || SomeMissedTheFlag(s)) ==> SomeSetWillTake(s)
  }

  ghost predicate Inv(s: State) {
    OncePlaced(s) && HolderExists(s) && LockIsHeld(s) && FlagFirst(s) && NoneForgotten(s)
  }

  lemma {:induction false} NothingInFlight(pcs: seq<Pc>)
    requires forall i :: 0 <= i < |pcs| ==> !pcs[i].Running?
    ensures InFlight(pcs) == multiset{}
  {
    if pcs != [] {
      NothingInFlight(pcs[..|pcs| - 1]);
    }
  }

  lemma InitInv(calls: seq<Call>)
    ensures Inv(Init(calls))
  {
    NothingInFlight(Init(calls).pcs);
  }

  /** The step that stores a callback or runs it directly. */
  predicate Lands(pc: Pc) { pc.RegMustRun? || pc == RegSaw(false) }

  lemma PlacedStep(s: State, i: nat)
    requires Enabled(s, i)
    ensures Placed(Apply(s, i)) == if Lands(s.pcs[i]) then Placed(s) + multiset{i} else Placed(s)
  {
    hide InFlight, Placed, Todo;
    if s.pcs[i].Running? && s.pcs[i].todo != [] {
      InvokedPlaced(s, i);
    } else if s.pcs[i].SetFlagged? {
      TakenPlaced(s, i);
    } else {
      QuietStep(s, i);
      if s.pcs[i].RegSaw? {
        StoredPlaced(s, i);
      } else if s.pcs[i].RegMustRun? {
        OwnRunPlaced(s, i);
      } else {
        SamePlaced(s, i);
      }
    }
  }

  predicate MovesNothing(pc: Pc) { !pc.SetFlagged? && (pc.Running? ==> pc.todo == []) }

  lemma QuietStep(s: State, i: nat)
    requires Enabled(s, i) && MovesNothing(s.pcs[i])
    ensures InFlight(Apply(s, i).pcs) == InFlight(s.pcs)
  {
    hide InFlight;
    InFlightKept(s.pcs, i, Apply(s, i).pcs[i]);
  }

  lemma StoredPlaced(s: State, i: nat)
    requires Enabled(s, i) && s.pcs[i].RegSaw? && InFlight(Apply(s, i).pcs) == InFlight(s.pcs)
    ensures Placed(Apply(s, i)) == if Lands(s.pcs[i]) then Placed(s) + multiset{i} else Placed(s)
  {
    hide InFlight, Todo;
    var f := InFlight(s.pcs);
    var k := s.token;
    assert multiset(k.callbacks + [i]) == multiset(k.callbacks) + multiset{i};
    assert (multiset(k.callbacks) + multiset{i}) + f + multiset(k.ran) == (multiset(k.callbacks) + f + multiset(k.ran)) + multiset{i};
  }

  lemma OwnRunPlaced(s: State, i: nat)
    requires Enabled(s, i) && s.pcs[i].RegMustRun? && InFlight(Apply(s, i).pcs) == InFlight(s.pcs)
    ensures Placed(Apply(s, i)) == Placed(s) + multiset{i}
  {
    hide InFlight, Todo;
    assert multiset(s.token.ran + [i]) == multiset(s.token.ran) + multiset{i};
  }

  lemma SamePlaced(s: State, i: nat)
    requires Enabled(s, i) && MovesNothing(s.pcs[i]) && !s.pcs[i].RegSaw? && !s.pcs[i].RegMustRun?
    requires InFlight(Apply(s, i).pcs) == InFlight(s.pcs)
    ensures Placed(Apply(s, i)) == Placed(s)
  {
    hide InFlight, Todo;
  }

  lemma StepPlaced(s: State, i: nat)
    requires Enabled(s, i) && OncePlaced(s)
    ensures OncePlaced(Apply(s, i))
  {
    hide Placed;
    PlacedStep(s, i);
    var t := Apply(s, i);
    forall r: nat ensures Placed(t)[r] == if Landed(t.pcs, r) then 1 else 0 {
      assert Placed(s)[r] == if Landed(s.pcs, r) then 1 else 0;
      assert r != i ==> (Landed(t.pcs, r) <==> Landed(s.pcs, r));
    }
  }

  lemma Cancelled<T>(a: multiset<T>, b: multiset<T>, c: multiset<T>)
    requires a + c == b + c
    ensures a == b
  {
    assert forall x :: (a + c)[x] == a[x] + c[x];
    assert forall x :: (b + c)[x] == b[x] + c[x];
  }

  lemma InvokedPlaced(s: State, i: nat)
    requires Enabled(s, i) && s.pcs[i].Running? && s.pcs[i].todo != []
    ensures Placed(Apply(s, i)) == Placed(s)
  {
    hide InFlight;
    var todo := s.pcs[i].todo;
    var was, now := InFlight(s.pcs), InFlight(Apply(s, i).pcs);
    InFlightUpdate(s.pcs, i, Running(todo[1..]));
    assert todo == [todo[0]] + todo[1..];
    assert now + multiset{todo[0]} + multiset(todo[1..]) == was + multiset(todo[1..]);
    Cancelled(now + multiset{todo[0]}, was, multiset(todo[1..]));
    assert Placed(Apply(s, i)) == multiset(s.token.callbacks) + (now + multiset{todo[0]}) + multiset(s.token.ran);
  }

  lemma TakenPlaced(s: State, i: nat)
    requires Enabled(s, i) && s.pcs[i].SetFlagged?
    ensures Placed(Apply(s, i)) == Placed(s)
  {
    hide InFlight;
    var cbs := s.token.callbacks;
    var was, now := InFlight(s.pcs), InFlight(Apply(s, i).pcs);
    InFlightUpdate(s.pcs, i, Running(cbs));
    assert Todo(SetFlagged) == multiset{};
    assert now + multiset{} == now;
    assert now == was + multiset(cbs);
  }

  lemma StepLock(s: State, i: nat)
    requires Enabled(s, i) && LockIsHeld(s) && HolderExists(s)
    ensures LockIsHeld(Apply(s, i)) && HolderExists(Apply(s, i))
  {
  }

  lemma StepFlag(s: State, i: nat)
    requires Enabled(s, i) && FlagFirst(s)
    ensures FlagFirst(Apply(s, i))
  {
    assert NeedsFlag(s.pcs[i]) ==> s.token.flag;
  }

  lemma StepNoneForgotten(s: State, i: nat)
    requires Enabled(s, i) && LockIsHeld(s) && NoneForgotten(s)
    ensures NoneForgotten(Apply(s, i))
  {
    var t := Apply(s, i);
    if s.pcs[i].SetFlagged? {
      assert forall j :: 0 <= j < |t.pcs| ==> t.pcs[j] != RegSaw(false);
    } else if t.token.flag && (t.token.callbacks != [] || SomeMissedTheFlag(t)) {
      if s.pcs[i].SetCalled? {
        assert t.pcs[i].SetFlagged?;
      } else {
        if SomeMissedTheFlag(t) {
          var j :| 0 <= j < |t.pcs| && t.pcs[j] == RegSaw(false);
          assert j != i && s.pcs[j] == RegSaw(false);
        }
        assert s.pcs[i].RegSaw? && !s.pcs[i].seen ==> SomeMissedTheFlag(s);
        assert SomeSetWillTake(s);
        var k :| 0 <= k < |s.pcs| && s.pcs[k].SetFlagged?;
        assert t.pcs[k].SetFlagged?;
      }
    }
  }

  lemma {:induction false} RunInv(calls: seq<Call>, es: seq<nat>, t: State)
    requires Runs(Init(calls), es, t)
    ensures Inv(t) && |t.pcs| == |calls|
    decreases |es|
  {
    hide OncePlaced, LockIsHeld, FlagFirst, NoneForgotten;
    if es == [] {
      InitInv(calls);
    } else {
      var u, i := es[..|es| - 1], es[|es| - 1];
      var mid :| Runs(Init(calls), u, mid) && Enabled(mid, i) && t == Apply(mid, i);
      RunInv(calls, u, mid);
      StepPlaced(mid, i);
      StepLock(mid, i);
      StepFlag(mid, i);
      StepNoneForgotten(mid, i);
    }
  }

  // ------------------------------------------------------------ what every race keeps

  /** A call keeps its kind. */
  predicate IsRegistration(pc: Pc) { pc.RegCalled? || InLock(pc) || pc.RegMustRun? || pc.RegReturned? }

  lemma {:induction false} KindsStay(calls: seq<Call>, es: seq<nat>, t: State)
    requires Runs(Init(calls), es, t)
    ensures |t.pcs| == |calls|
    ensures forall i :: 0 <= i < |calls| ==> (calls[i].OnCancel? <==> IsRegistration(t.pcs[i]))
    decreases |es|
  {
    if es != [] {
      var u, i := es[..|es| - 1], es[|es| - 1];
      var mid :| Runs(Init(calls), u, mid) && Enabled(mid, i) && t == Apply(mid, i);
      KindsStay(calls, u, mid);
    }
  }

  function TimesRun(s: State, r: nat): nat { multiset(s.token.ran)[r] }

  /** At any moment of any race, no callback has run twice, none has run unless its
      registration began, and none has run while the flag was unset. */
  lemma AtMostOnceAndNotEarly(calls: seq<Call>, es: seq<nat>, t: State, r: nat)
    requires Runs(Init(calls), es, t)
    ensures TimesRun(t, r) <= 1
    ensures TimesRun(t, r) == 1 ==> r < |calls| && calls[r].OnCancel? && t.token.flag
  {
    hide InFlight, LockIsHeld, NoneForgotten;
    RunInv(calls, es, t);
    KindsStay(calls, es, t);
    assert Placed(t)[r] >= TimesRun(t, r);
    if TimesRun(t, r) == 1 {
      assert r in multiset(t.token.ran);
    }
  }

  predicate Returned(pc: Pc) { pc.SetReturned? || pc.RegReturned? }

  predicate AllReturned(s: State) { forall i :: 0 <= i < |s.pcs| ==> Returned(s.pcs[i]) }

  /** Once every call has returned and the token is set, every registered callback has run
      exactly once; without a set, none has. */
  lemma ExactlyOnce(calls: seq<Call>, es: seq<nat>, t: State, r: nat)
    requires Runs(Init(calls), es, t) && AllReturned(t)
    requires r < |calls| && calls[r].OnCancel?
    ensures TimesRun(t, r) == if t.token.flag then 1 else 0
  {
    hide InFlight;
    RunInv(calls, es, t);
    KindsStay(calls, es, t);
    NothingInFlight(t.pcs);
    assert Landed(t.pcs, r);
    if t.token.flag {
      assert !SomeSetWillTake(t);
      assert t.token.callbacks == [];
      assert Placed(t) == multiset(t.token.ran);
    }
  }

  predicate SetCallMade(calls: seq<Call>) { exists i :: 0 <= i < |calls| && calls[i].Set? }

  /** With all calls back, the token is set exactly when one of them was `set`. */
  lemma {:induction false} FlagMeansSet(calls: seq<Call>, es: seq<nat>, t: State)
    requires Runs(Init(calls), es, t)
    ensures t.token.flag ==> SetCallMade(calls)
    ensures AllReturned(t) && SetCallMade(calls) ==> t.token.flag
    decreases |es|
  {
    hide OncePlaced, LockIsHeld, NoneForgotten;
    KindsStay(calls, es, t);
    RunInv(calls, es, t);
    if AllReturned(t) && SetCallMade(calls) {
      var i :| 0 <= i < |calls| && calls[i].Set?;
      assert NeedsFlag(t.pcs[i]);
    }
    if es != [] {
      var u, i := es[..|es| - 1], es[|es| - 1];
      var mid :| Runs(Init(calls), u, mid) && Enabled(mid, i) && t == Apply(mid, i);
      FlagMeansSet(calls, u, mid);
      KindsStay(calls, u, mid);
      if mid.pcs[i].SetCalled? {
        assert calls[i].Set?;
      }
    }
  }

  /** No deadlock: until every call has returned, some thread can take a step. */
  lemma NoDeadlock(calls: seq<Call>, es: seq<nat>, t: State)
    requires Runs(Init(calls), es, t) && !AllReturned(t)
    ensures exists i :: Enabled(t, i)
  {
    hide OncePlaced, FlagFirst, NoneForgotten;
    RunInv(calls, es, t);
    if t.holder.Some? {
      assert InLock(t.pcs[t.holder.value]);
      assert Enabled(t, t.holder.value);
    } else {
      var i :| 0 <= i < |t.pcs| && !Returned(t.pcs[i]);
      assert Enabled(t, i);
    }
  }
}

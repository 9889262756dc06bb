/** Runs that show the failures and the costs of progress.py to be real. */
module ProgressWitnesses {
  import opened Common
  import opened Progress
  import opened ProgressEnds
  import opened ProgressChat
  import opened ProgressRetries

  // ------------------------------------------------------------ pieces of a run

  lemma Two(limits: Limits, s: State, e: Event, f: Event)
    requires Enabled(s, e) && Enabled(Apply(limits, s, e), f)
    ensures Runs(limits, s, [e, f], Apply(limits, Apply(limits, s, e), f))
  {
    hide Apply, Enabled;
    NoSteps(limits, s);
    OneMore(limits, s, [], s, e);
    assert [] + [e] == [e];
    OneMore(limits, s, [e], Apply(limits, s, e), f);
    assert [e] + [f] == [e, f];
  }

  lemma Three(limits: Limits, s: State, e: Event, f: Event, g: Event)
    requires Enabled(s, e) && Enabled(Apply(limits, s, e), f) && Enabled(Apply(limits, Apply(limits, s, e), f), g)
    ensures Runs(limits, s, [e, f, g], Apply(limits, Apply(limits, Apply(limits, s, e), f), g))
  {
    hide Apply, Enabled;
    Two(limits, s, e, f);
    OneMore(limits, s, [e, f], Apply(limits, Apply(limits, s, e), f), g);
    assert [e, f] + [g] == [e, f, g];
  }

  /** A call that is up next, with the lock free and the first message still in place. */
  predicate Upcoming(s: State, i: nat) {
    && i < |s.calls| && s.holder.None? && s.calls[i] == NewCall(s.calls[i].req)
    && |s.chat| == 1 && s.reporter.message == 0
    && s.reporter.lastText != Some(s.calls[i].req.text)
    && (!s.calls[i].req.terminal ==> !s.reporter.completed && !s.reporter.uneditable && s.reporter.lastApplied <= s.reporter.issued)
  }

  /** Only call `i` moved. */
  predicate OnlyMoved(s: State, t: State, i: nat) {
    && i < |s.calls| == |t.calls| && t.holder.None? && t.calls[i].req == s.calls[i].req
    && forall j :: 0 <= j < |s.calls| && j != i ==> t.calls[j] == s.calls[j]
  }

  lemma EditBegins(limits: Limits, s: State, i: nat) returns (t: State)
    requires Upcoming(s, i)
    ensures Enabled(s, Event.Enter(i)) && Enabled(Apply(limits, s, Event.Enter(i)), Lock(i))
    ensures t == Apply(limits, Apply(limits, s, Event.Enter(i)), Lock(i))
    ensures |t.calls| == |s.calls| && forall j :: 0 <= j < |s.calls| && j != i ==> t.calls[j] == s.calls[j]
    ensures var c := t.calls[i];
            c.pc == Editing && c.req == s.calls[i].req && c.number == s.reporter.issued + 1 && c.buttons == ButtonsOf(c.req)
            && c.target == 0 && !c.wiped && c.task.NoTask?
    ensures t.reporter == Entered(s.reporter, s.calls[i].req)
    ensures t.chat == s.chat && t.log == s.log && t.cancelled == s.cancelled && t.holder == Some(i)
  {
    hide ButtonsOf, OnReply, OnPlainReply, OnResponse, OnRetry;
    t := Apply(limits, Apply(limits, s, Event.Enter(i)), Lock(i));
  }

  /** The reporter after an edit of call `i` worked. */
  function AfterShown(r: Reporter, q: Request, i: nat): Reporter {
    var u := Recorded(Entered(r, q), r.issued + 1, q.text, ButtonsOf(q));
    if q.terminal then Marked(u, i) else u
  }

  function ShowEvents(i: nat): seq<Event> { [Event.Enter(i), Lock(i), Answer(i, Applied)] }

  /** Its first edit works. */
  lemma Shows1(limits: Limits, s: State, i: nat) returns (t: State)
    requires Upcoming(s, i) && s.chat[0].Some?
    ensures Runs(limits, s, ShowEvents(i), t) && OnlyMoved(s, t, i) && t.calls[i].pc == Returned(Delivered)
    ensures t.calls[i].task.NoTask?
    ensures t.chat == [Some(s.calls[i].req.text)] && t.reporter == AfterShown(s.reporter, s.calls[i].req, i)
    ensures t.cancelled == if s.calls[i].req.terminal then Cancelling(s, i) else s.cancelled
  {
    hide Recorded, Marked, ButtonsOf, OnResponse, OnPlainReply, OnRetry, Entered;
    var b := EditBegins(limits, s, i);
    t := Apply(limits, b, Answer(i, Applied));
    assert Entered(s.reporter, s.calls[i].req).deferred == s.reporter.deferred by { EnteredKeeps(s.reporter, s.calls[i].req); }
    Three(limits, s, Event.Enter(i), Lock(i), Answer(i, Applied));
  }

  lemma EnteredKeeps(r: Reporter, q: Request)
    ensures Entered(r, q).deferred == r.deferred
  {
  }

  /** Its edit fails for good. */
  lemma EditFails(limits: Limits, s: State, i: nat) returns (t: State)
    requires Upcoming(s, i) && s.calls[i].req.terminal
    ensures Runs(limits, s, [Event.Enter(i), Lock(i), Answer(i, Transient)], t) && OnlyMoved(s, t, i)
    ensures t.calls[i].pc == Undelivered && t.calls[i].task.NoTask? && !t.calls[i].wiped
    ensures t.chat == s.chat && t.reporter == Entered(s.reporter, s.calls[i].req) && t.cancelled == s.cancelled
  {
    hide ButtonsOf, OnResponse, OnPlainReply, OnRetry, Entered, DeliveredBy;
    var b := EditBegins(limits, s, i);
    t := Apply(limits, b, Answer(i, Transient));
    Three(limits, s, Event.Enter(i), Lock(i), Answer(i, Transient));
  }

  /** Its new message is rejected too, and the old message is deleted or not. */
  lemma FallbackFails(limits: Limits, s: State, i: nat, deleted: bool) returns (t: State)
    requires i < |s.calls| && s.calls[i].pc == Undelivered && s.holder.None? && s.calls[i].task.NoTask?
    requires |s.chat| == 1 && s.reporter.message == 0
    ensures Runs(limits, s, [FallbackLock(i), Response(i, Respond, Rejected),
                             Response(i, Delete(false), if deleted then Sent else Rejected)], t) && OnlyMoved(s, t, i)
    ensures t.calls[i].pc == Returned(Lost) && t.calls[i].wiped == deleted && t.calls[i].target == 0
    ensures t.calls[i].task == if deleted && !s.calls[i].req.isFailure then NoTask else Asleep
    ensures t.chat == if deleted then [None] else s.chat
    ensures t.reporter == if deleted && !s.calls[i].req.isFailure then s.reporter else s.reporter.(deferred := Some(i))
    ensures t.cancelled == s.cancelled
  {
    hide OnReply, OnPlainReply, OnRetry, OnRecord;
    var last := Response(i, Delete(false), if deleted then Sent else Rejected);
    var a := Apply(limits, s, FallbackLock(i));
    assert a.calls[i].pc == Sending(Respond, 0);
    var b := Apply(limits, a, Response(i, Respond, Rejected));
    assert b.calls[i].pc == Sending(Delete(false), 0);
    t := Apply(limits, b, last);
    Three(limits, s, FallbackLock(i), Response(i, Respond, Rejected), last);
  }

  function LoseEvents(i: nat, deleted: bool): seq<Event> {
    [Event.Enter(i), Lock(i), Answer(i, Transient)]
    + [FallbackLock(i), Response(i, Respond, Rejected), Response(i, Delete(false), if deleted then Sent else Rejected)]
  }

  /** A terminal text is lost. */
  lemma Loses(limits: Limits, s: State, i: nat, deleted: bool) returns (t: State)
    requires Upcoming(s, i) && s.calls[i].req.terminal
    ensures Runs(limits, s, LoseEvents(i, deleted), t) && OnlyMoved(s, t, i)
    ensures t.calls[i].pc == Returned(Lost) && t.calls[i].wiped == deleted && t.calls[i].target == 0
    ensures t.calls[i].task == if deleted && !s.calls[i].req.isFailure then NoTask else Asleep
    ensures t.chat == if deleted then [None] else s.chat
    ensures var r := Entered(s.reporter, s.calls[i].req);
            t.reporter == if deleted && !s.calls[i].req.isFailure then r else r.(deferred := Some(i))
    ensures t.cancelled == s.cancelled
  {
    hide Runs, Apply;
    var a := EditFails(limits, s, i);
    t := FallbackFails(limits, a, i, deleted);
    RunsJoin(limits, s, [Event.Enter(i), Lock(i), Answer(i, Transient)], a,
             [FallbackLock(i), Response(i, Respond, Rejected), Response(i, Delete(false), if deleted then Sent else Rejected)], t);
  }

  /** A sleeping retry of a failure wakes up before any terminal text got through. */
  lemma Wakes(limits: Limits, s: State, i: nat) returns (t: State)
    requires i < |s.calls| && s.calls[i].task.Asleep? && !s.reporter.delivered && s.calls[i].req.isFailure && !s.calls[i].wiped
    requires s.holder.None?
    ensures Runs(limits, s, [Rouse(i)], t) && OnlyMoved(s, t, i)
    ensures t.calls[i] == s.calls[i].(task := Asking(ByEdit))
    ensures t.chat == s.chat && t.reporter == s.reporter && t.cancelled == s.cancelled
  {
    hide OnReply, OnPlainReply, OnResponse, OnRetry;
    t := Apply(limits, s, Rouse(i));
    NoSteps(limits, s);
    OneMore(limits, s, [], s, Rouse(i));
    assert [] + [Rouse(i)] == [Rouse(i)];
  }

  function RetryEvents(i: nat, tidied: bool): seq<Event> { [Retry(i, ByEdit, true), Retry(i, Tidy, tidied)] }

  /** It edits its text in, and then deletes the very message it edited, or fails to. */
  lemma EditsThenTidies(limits: Limits, s: State, i: nat, tidied: bool) returns (t: State)
    requires i < |s.calls| && s.calls[i].task == Asking(ByEdit) && !s.calls[i].wiped && i !in s.cancelled
    requires s.calls[i].target == 0 && |s.chat| == 1 && s.chat[0].Some? && s.holder.None?
    ensures Runs(limits, s, RetryEvents(i, tidied), t) && OnlyMoved(s, t, i)
    ensures t.calls[i].task.Over? && t.chat == [if tidied then None else Some(s.calls[i].req.text)]
    ensures t.reporter == Marked(s.reporter, i)
  {
    hide Apply;
    var a := EditsLate(limits, s, i);
    t := Tidies(limits, a, i, tidied);
    Two(limits, s, Retry(i, ByEdit, true), Retry(i, Tidy, tidied));
  }

  lemma EditsLate(limits: Limits, s: State, i: nat) returns (t: State)
    requires i < |s.calls| && s.calls[i].task == Asking(ByEdit) && !s.calls[i].wiped && i !in s.cancelled
    requires s.calls[i].target == 0 && |s.chat| == 1 && s.chat[0].Some? && s.holder.None?
    ensures Enabled(s, Retry(i, ByEdit, true)) && t == Apply(limits, s, Retry(i, ByEdit, true)) && OnlyMoved(s, t, i)
    ensures t.calls[i] == s.calls[i].(task := Asking(Tidy)) && i !in t.cancelled
    ensures t.chat == [Some(s.calls[i].req.text)] && t.reporter == Marked(s.reporter, i)
  {
    hide OnReply, OnPlainReply, OnResponse, Marked, ShownBy;
    RetryCancels(s, i, ByEdit, true);
    t := Apply(limits, s, Retry(i, ByEdit, true));
  }

  lemma Tidies(limits: Limits, s: State, i: nat, tidied: bool) returns (t: State)
    requires i < |s.calls| && s.calls[i].task == Asking(Tidy) && i !in s.cancelled
    requires s.calls[i].target == 0 && |s.chat| == 1 && s.holder.None?
    ensures Enabled(s, Retry(i, Tidy, tidied)) && t == Apply(limits, s, Retry(i, Tidy, tidied)) && OnlyMoved(s, t, i)
    ensures t.calls[i].task.Over? && t.chat == (if tidied then [None] else s.chat) && t.reporter == s.reporter
  {
    hide OnReply, OnPlainReply, OnResponse, Tells, Cancelling;
    t := Apply(limits, s, Retry(i, Tidy, tidied));
  }

  lemma SameAgain(limits: Limits, t: State, i: nat)
    requires i < |t.calls| && t.calls[i] == NewCall(t.calls[i].req) && t.calls[i].req.terminal
    requires t.reporter.lastText == Some(t.calls[i].req.text) && ButtonsOf(t.calls[i].req) == t.reporter.lastButtons
    ensures ReturnsSame(limits, t, i)
  {
    hide OnReply, OnPlainReply, OnResponse, OnRetry, OnWake, Entered, ButtonsOf;
  }

  // ------------------------------------------------------------ "the same" can be wrong

  const RESULT := Request("a", true, false, None, None)

  const STATUS := Request("a", false, false, None, None)

  const FAILURE := Request("b", true, true, None, None)

  /** A terminal update can come back with nothing shown and nothing left to be done about it:
      the edit and the new message fail, and the deletion of the old message works. Saying the
      first text again is then skipped as "the same" although the chat shows nothing. */
  lemma NothingLeftOnScreen(limits: Limits) returns (requests: seq<Request>, es: seq<Event>, t: State)
    ensures Runs(limits, Init(requests, true), es, t) && |requests| == 3 == |t.calls|
    ensures t.calls[1].req.terminal && t.calls[1].pc == Returned(Lost) && t.calls[1].task == NoTask
    ensures t.chat == [None] && ReturnsSame(limits, t, 2)
  {
    hide Runs, Apply;
    requests := [RESULT, FAILURE.(isFailure := false), RESULT];
    var s := Init(requests, true);
    var a := Shows1(limits, s, 0);
    assert a.reporter.lastText == Some("a") && "a"[0] != "b"[0];
    t := Loses(limits, a, 1, true);
    RunsJoin(limits, s, ShowEvents(0), a, LoseEvents(1, true), t);
    es := ShowEvents(0) + LoseEvents(1, true);
    SameAgain(limits, t, 2);
  }

  /** A status text is shown, a failure is lost and shown late by its retry: the result that
      reads like the status text is skipped as "the same" while the failure stands in the chat. */
  lemma AnotherTextOnScreen(limits: Limits) returns (requests: seq<Request>, es: seq<Event>, t: State)
    ensures Runs(limits, Init(requests, true), es, t) && |requests| == 3 == |t.calls| && NoneAsking(t)
    ensures t.chat == [Some("b")] && t.calls[2].req.terminal && t.calls[2].req.text == "a" && ReturnsSame(limits, t, 2)
  {
    hide Runs, Apply;
    requests := [STATUS, FAILURE, RESULT];
    var s := Init(requests, true);
    var a := Shows1(limits, s, 0);
    assert a.reporter.lastText == Some("a") && "a"[0] != "b"[0];
    var b := Loses(limits, a, 1, false);
    var c := Wakes(limits, b, 1);
    t := EditsThenTidies(limits, c, 1, false);
    RunsJoin(limits, s, ShowEvents(0), a, LoseEvents(1, false), b);
    RunsJoin(limits, s, ShowEvents(0) + LoseEvents(1, false), b, [Rouse(1)], c);
    RunsJoin(limits, s, ShowEvents(0) + LoseEvents(1, false) + [Rouse(1)], c, RetryEvents(1, false), t);
    es := ShowEvents(0) + LoseEvents(1, false) + [Rouse(1)] + RetryEvents(1, false);
    SameAgain(limits, t, 2);
  }

  // ------------------------------------------------------------ what a retry can ruin

  /** A failure whose edit is rejected once is shown by its retry, which then deletes the very
      message that shows it: the failure counts as delivered, and the chat is empty. */
  lemma EditedThenDeleted(limits: Limits) returns (es: seq<Event>, t: State)
    ensures Runs(limits, Init([FAILURE], true), es, t)
    ensures |t.calls| == 1 && t.calls[0].task.Over? && t.reporter.delivered && t.chat == [None]
  {
    hide Runs, Apply;
    var s := Init([FAILURE], true);
    var a := Loses(limits, s, 0, false);
    var b := Wakes(limits, a, 0);
    t := EditsThenTidies(limits, b, 0, true);
    RunsJoin(limits, s, LoseEvents(0, false), a, [Rouse(0)], b);
    RunsJoin(limits, s, LoseEvents(0, false) + [Rouse(0)], b, RetryEvents(0, true), t);
    es := LoseEvents(0, false) + [Rouse(0)] + RetryEvents(0, true);
  }

  /** With two lost failures only the later one's retry is cancelled when a result gets through.
      If the retry of the first is past its checks by then, it overwrites the result, and deletes it. */
  lemma OlderRetryRuinsResult(limits: Limits) returns (requests: seq<Request>, es: seq<Event>, t: State)
    ensures Runs(limits, Init(requests, true), es, t) && |requests| == 3 == |t.calls|
    ensures t.calls[2].req.terminal && !t.calls[2].req.isFailure && t.calls[2].pc == Returned(Delivered)
    ensures t.chat == [None]
  {
    hide Runs, Apply;
    requests := [FAILURE, FAILURE, RESULT];
    var s := Init(requests, true);
    var a := Loses(limits, s, 0, false);
    var b := Loses(limits, a, 1, false);
    var c := Wakes(limits, b, 0);
    var d := Shows1(limits, c, 2);
    assert d.calls[0] == c.calls[0];
    t := EditsThenTidies(limits, d, 0, true);
    var e0 := LoseEvents(0, false) + LoseEvents(1, false);
    RunsJoin(limits, s, LoseEvents(0, false), a, LoseEvents(1, false), b);
    RunsJoin(limits, s, e0, b, [Rouse(0)], c);
    RunsJoin(limits, s, e0 + [Rouse(0)], c, ShowEvents(2), d);
    RunsJoin(limits, s, e0 + [Rouse(0)] + ShowEvents(2), d, RetryEvents(0, true), t);
    es := e0 + [Rouse(0)] + ShowEvents(2) + RetryEvents(0, true);
  }

  // ------------------------------------------------------------ the cost bound is reached

  /** A terminal text that is slow all the way. */
  const SLOW := Request("a", true, true, None, None)

  /** The only call, after `n` slept flood waits of the longest kind. */
  predicate Slow(limits: Limits, s: State, n: nat) {
    |s.calls| == 1 && s.calls[0].req == SLOW && s.calls[0].sleeps == n && s.calls[0].slept == Waits(n, limits.maxWait)
  }

  lemma EditFlood(limits: Limits, s: State, n: nat) returns (t: State)
    requires limits.maxWait >= 1 && Slow(limits, s, n) && s.holder.None? && n <= limits.maxRetries
    requires s.calls[0].pc == Waiting && s.calls[0].attempts == n && s.calls[0].sends == 0
    ensures Runs(limits, s, [Lock(0), Answer(0, Flood(limits.maxWait))] + (if n < limits.maxRetries then [Wake(0)] else []), t)
    ensures n < limits.maxRetries ==> t.calls != [] && t.calls[0].pc == Waiting && t.calls[0].attempts == n + 1
    ensures n == limits.maxRetries ==> t.calls != [] && t.calls[0].pc == Undelivered
    ensures Slow(limits, t, if n < limits.maxRetries then n + 1 else n) && t.holder.None? && t.calls[0].sends == 0
  {
    hide OnResponse, OnPlainReply, Entered, Recorded, Waits;
    OneMoreWait(n, limits.maxWait);
    var e, f := Lock(0), Answer(0, Flood(limits.maxWait));
    var a := Apply(limits, s, e);
    assert a.calls[0].pc == Editing && a.calls[0].attempts == n;
    var b := Apply(limits, a, f);
    if n < limits.maxRetries {
      t := Apply(limits, b, Wake(0));
      Three(limits, s, e, f, Wake(0));
      assert [e, f] + [Wake(0)] == [e, f, Wake(0)];
    } else {
      t := b;
      Two(limits, s, e, f);
      assert [e, f] + [] == [e, f];
    }
  }

  lemma SlowStarts(limits: Limits) returns (t: State)
    ensures Runs(limits, Init([SLOW], true), [Event.Enter(0)], t)
    ensures Slow(limits, t, 0) && t.holder.None? && t.calls[0].pc == Waiting && t.calls[0].attempts == 0 && t.calls[0].sends == 0
  {
    hide OnReply, OnPlainReply, OnResponse, OnWake, Runs;
    var s := Init([SLOW], true);
    t := Apply(limits, s, Event.Enter(0));
    NoSteps(limits, s);
    OneMore(limits, s, [], s, Event.Enter(0));
    assert [] + [Event.Enter(0)] == [Event.Enter(0)];
  }

  lemma {:induction false} EditFloods(limits: Limits, n: nat) returns (es: seq<Event>, t: State)
    requires limits.maxWait >= 1 && n <= limits.maxRetries
    ensures Runs(limits, Init([SLOW], true), es, t)
    ensures Slow(limits, t, n) && t.holder.None? && t.calls[0].pc == Waiting && t.calls[0].attempts == n && t.calls[0].sends == 0
  {
    hide Runs, Slow, Init, Apply;
    var s := Init([SLOW], true);
    if n == 0 {
      t := SlowStarts(limits);
      es := [Event.Enter(0)];
    } else {
      var fs, u := EditFloods(limits, n - 1);
      t := EditFlood(limits, u, n - 1);
      var gs := [Lock(0), Answer(0, Flood(limits.maxWait))] + [Wake(0)];
      RunsJoin(limits, s, fs, u, gs, t);
      es := fs + gs;
    }
  }

  /** The only call is at one of its fallback requests, `floods` waits into that phase. */
  predicate AtRequest(limits: Limits, s: State, phase: Phase, floods: nat, sleeps: nat, sends: nat) {
    Slow(limits, s, sleeps) && s.calls[0].pc == Sending(phase, floods) && s.calls[0].sends == sends
  }

  lemma RequestFlood(limits: Limits, s: State, phase: Phase, floods: nat, sleeps: nat, sends: nat) returns (t: State)
    requires limits.maxWait >= 1 && AtRequest(limits, s, phase, floods, sleeps, sends) && floods < limits.maxRetries
    ensures Runs(limits, s, [Response(0, phase, Flooded(limits.maxWait)), Wake(0)], t)
    ensures AtRequest(limits, t, phase, floods + 1, sleeps + 1, sends + 1)
  {
    hide OnReply, OnPlainReply, Entered, Recorded, Waits, Settled;
    OneMoreWait(sleeps, limits.maxWait);
    var e := Response(0, phase, Flooded(limits.maxWait));
    var a := Apply(limits, s, e);
    assert a.calls[0].pc == Pausing(phase, floods + 1);
    t := Apply(limits, a, Wake(0));
    Two(limits, s, e, Wake(0));
  }

  lemma {:induction false} RequestFloods(limits: Limits, s: State, phase: Phase, sleeps: nat, sends: nat, n: nat)
    returns (es: seq<Event>, t: State)
    requires limits.maxWait >= 1 && AtRequest(limits, s, phase, 0, sleeps, sends) && n <= limits.maxRetries
    ensures Runs(limits, s, es, t) && AtRequest(limits, t, phase, n, sleeps + n, sends + n)
  {
    hide Runs, AtRequest;
    if n == 0 {
      es, t := [], s;
      NoSteps(limits, s);
    } else {
      var fs, u := RequestFloods(limits, s, phase, sleeps, sends, n - 1);
      t := RequestFlood(limits, u, phase, n - 1, sleeps + (n - 1), sends + (n - 1));
      var gs := [Response(0, phase, Flooded(limits.maxWait)), Wake(0)];
      RunsJoin(limits, s, fs, u, gs, t);
      es := fs + gs;
    }
  }

  lemma FallbackBegins(limits: Limits, s: State, n: nat)
    requires Slow(limits, s, n) && s.holder.None? && s.calls[0].pc == Undelivered && s.calls[0].sends == 0
    ensures Enabled(s, FallbackLock(0)) && AtRequest(limits, Apply(limits, s, FallbackLock(0)), Respond, 0, n, 1)
  {
    hide OnReply, OnPlainReply, OnResponse, Waits;
  }

  lemma MessageRejected(limits: Limits, s: State, floods: nat, sleeps: nat, sends: nat)
    requires AtRequest(limits, s, Respond, floods, sleeps, sends)
    ensures Enabled(s, Response(0, Respond, Rejected))
    ensures AtRequest(limits, Apply(limits, s, Response(0, Respond, Rejected)), Delete(false), 0, sleeps, sends + 1)
  {
    hide OnReply, OnPlainReply, Waits;
  }

  /** The bound of `UpdateCost` is the best one: a terminal update can sleep out 3·max_retries
      waits of max_wait_seconds and send 2·max_retries + 2 fallback requests. */
  lemma UpdateCostIsReached(limits: Limits) returns (es: seq<Event>, t: State)
    requires limits.maxWait >= 1
    ensures Runs(limits, Init([SLOW], true), es, t) && |t.calls| == 1 && t.calls[0].req.terminal
    ensures t.calls[0].sleeps == 3 * limits.maxRetries
    ensures t.calls[0].slept == 3 * limits.maxRetries * limits.maxWait
    ensures t.calls[0].sends == 2 * limits.maxRetries + 2
  {
    hide Runs, Apply, Init, Enabled, Waits;
    var s, r := Init([SLOW], true), limits.maxRetries;
    var e0, s0 := EditFloods(limits, r);
    var s1 := EditFlood(limits, s0, r);
    var e1 := [Lock(0), Answer(0, Flood(limits.maxWait))] + [];
    RunsJoin(limits, s, e0, s0, e1, s1);
    FallbackBegins(limits, s1, r);
    OneMore(limits, s, e0 + e1, s1, FallbackLock(0));
    var e2, s2 := e0 + e1 + [FallbackLock(0)], Apply(limits, s1, FallbackLock(0));
    var e3, s3 := RequestFloods(limits, s2, Respond, r, 1, r);
    RunsJoin(limits, s, e2, s2, e3, s3);
    MessageRejected(limits, s3, r, r + r, 1 + r);
    OneMore(limits, s, e2 + e3, s3, Response(0, Respond, Rejected));
    var e4, s4 := e2 + e3 + [Response(0, Respond, Rejected)], Apply(limits, s3, Response(0, Respond, Rejected));
    var e5, s5 := RequestFloods(limits, s4, Delete(false), r + r, 1 + r + 1, r);
    RunsJoin(limits, s, e4, s4, e5, s5);
    es, t := e4 + e5, s5;
    WaitsIs(3 * r, limits.maxWait);
    assert r + r + r == 3 * r;
  }
}

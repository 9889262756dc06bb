/** The background retry of a lost terminal text (telegram/progress.py,
    `_deferred_terminal_retry`): what the delivered latch stops, and what a retry leaves behind. */
module ProgressRetries {
  import opened Common
  import opened Progress
  import opened ProgressEnds
  import opened ProgressChat

  // ------------------------------------------------------------ the latch

  /** How many replies the retry of call `i` got, heard or not. */
  ghost function RetryReplies(es: seq<Event>, i: nat): nat {
    if es == [] then 0
    else RetryReplies(es[..|es| - 1], i) + if es[|es| - 1].Retry? && es[|es| - 1].i == i then 1 else 0
  }

  /** What an event after the delivery of a terminal text does to the mover's retry. */
  predicate Latched(s: State, t: State, e: Event) {
    && e.i < |s.calls| == |t.calls|
    && t.reporter.delivered && s.cancelled <= t.cancelled
    && (t.calls[e.i].task.Asking? ==> (e.Retry? && e.i !in s.cancelled) || s.calls[e.i].task == t.calls[e.i].task)
    && (e.Retry? ==> s.calls[e.i].task.Asking?)
    && (e.Retry? && e.i in s.cancelled ==> t.calls[e.i].task.Over?)
  }

  lemma AnswerLatched(limits: Limits, s: State, e: Event)
    requires Enabled(s, e) && e.Answer? && s.reporter.delivered
    ensures Latched(s, Apply(limits, s, e), e)
  {
    hide Posted, ShownBy, TooLong, WaitSeconds;
  }

  lemma ResponseLatched(limits: Limits, s: State, e: Event)
    requires Enabled(s, e) && e.Response? && s.reporter.delivered
    ensures Latched(s, Apply(limits, s, e), e)
  {
    hide Posted, Wiped, ShownBy, WaitSeconds, Exceeds;
  }

  lemma MoverTaskAfter(limits: Limits, s: State, e: Event)
    requires Enabled(s, e) && s.reporter.delivered && TaskFollows(s.calls[e.i])
    ensures Latched(s, Apply(limits, s, e), e)
  {
    hide SameShown, Refused, ButtonsOf, OnRetry, OnReply, OnPlainReply, OnResponse, Stale;
    match e
    case Answer(_, _) => AnswerLatched(limits, s, e);
    case Response(_, _, _) => ResponseLatched(limits, s, e);
    case Retry(i, route, ok) =>
      RetryOnly(s, i, route, ok);
      RetryCancels(s, i, route, ok);
    case _ =>
  }

  lemma RetryCancels(s: State, i: nat, route: Route, ok: bool)
    requires i < |s.calls|
    ensures s.cancelled <= OnRetry(s, i, route, ok).cancelled
    ensures i !in s.cancelled ==> i !in OnRetry(s, i, route, ok).cancelled
  {
    hide Effect, NextTask;
    EffectCalls(s, s.calls[i], route);
  }

  /** Once a terminal text got through, a retry that is not past its checks by then never asks for
      anything: it shows nothing, deletes nothing. One that was cancelled past its checks hears no
      reply any more; only the request it had sent can still be carried out. */
  lemma {:induction false} LatchStopsRetries(limits: Limits, s: State, fs: seq<Event>, u: State, i: nat)
    requires Runs(limits, s, fs, u) && s.reporter.delivered && i < |s.calls| && TasksFollow(s)
    ensures |u.calls| == |s.calls| && u.reporter.delivered && TasksFollow(u) && s.cancelled <= u.cancelled
    ensures !s.calls[i].task.Asking? ==> RetryReplies(fs, i) == 0 && !u.calls[i].task.Asking?
    ensures i in s.cancelled ==> RetryReplies(fs, i) + (if u.calls[i].task.Asking? then 1 else 0)
                                 <= if s.calls[i].task.Asking? then 1 else 0
    decreases |fs|
  {
    hide Apply, TasksFollow;
    if fs != [] {
      var gs, e := fs[..|fs| - 1], fs[|fs| - 1];
      var mid :| Runs(limits, s, gs, mid) && Enabled(mid, e) && u == Apply(limits, mid, e);
      LatchStopsRetries(limits, s, gs, mid, i);
      OthersStay(limits, mid, e);
      StepTasks(limits, mid, e);
      TaskOfMover(mid, e);
      MoverTaskAfter(limits, mid, e);
    }
  }

  lemma TaskOfMover(s: State, e: Event)
    requires Enabled(s, e) && TasksFollow(s)
    ensures TaskFollows(s.calls[e.i])
  {
  }

  // ------------------------------------------------------------ one lost text

  /** A retry without the reporter's handle was cancelled, or another text was lost as well. */
  ghost predicate Handles(s: State) {
    forall j: nat :: j < |s.calls| && !s.calls[j].task.NoTask? && j !in s.cancelled && s.reporter.deferred != Some(j)
      ==> exists k: nat :: k < |s.calls| && k != j && !s.calls[k].task.NoTask?
  }

  /** How an event may move the handle. */
  predicate HandleMoves(s: State, t: State, i: nat) {
    && i < |s.calls| == |t.calls| && s.cancelled <= t.cancelled
    && (!s.calls[i].task.NoTask? ==> !t.calls[i].task.NoTask?)
    && (s.calls[i].task.NoTask? && !t.calls[i].task.NoTask? ==> t.reporter.deferred == Some(i))
    && (t.reporter.deferred == s.reporter.deferred
        || (t.reporter.deferred == Some(i) && !t.calls[i].task.NoTask?)
        || (s.reporter.deferred.Some? && s.reporter.deferred.value in t.cancelled))
  }

  lemma AnswerHandle(limits: Limits, s: State, e: Event)
    requires Enabled(s, e) && e.Answer?
    ensures HandleMoves(s, Apply(limits, s, e), e.i)
  {
    hide DeliveredBy, TooLong, WaitSeconds;
    DeliveredHandle(s, e.i, s.calls[e.i].buttons);
    DeliveredHandle(s, e.i, None);
  }

  lemma DeliveredHandle(s: State, i: nat, buttons: Buttons)
    requires i < |s.calls|
    ensures HandleMoves(s, DeliveredBy(s, i, buttons), i)
  {
    hide Posted, ShownBy;
  }

  lemma ResponseHandle(limits: Limits, s: State, e: Event)
    requires Enabled(s, e) && e.Response?
    ensures HandleMoves(s, Apply(limits, s, e), e.i)
  {
    hide Posted, Wiped, ShownBy, WaitSeconds, Exceeds;
  }

  lemma RetryHandle(limits: Limits, s: State, e: Event)
    requires Enabled(s, e) && e.Retry?
    ensures HandleMoves(s, Apply(limits, s, e), e.i)
  {
    hide Effect;
    EffectCalls(s, s.calls[e.i], e.route);
  }

  lemma MoverHandle(limits: Limits, s: State, e: Event)
    requires Enabled(s, e) && TaskFollows(s.calls[e.i])
    ensures HandleMoves(s, Apply(limits, s, e), e.i)
  {
    if e.Answer? {
      AnswerHandle(limits, s, e);
    } else if e.Response? {
      ResponseHandle(limits, s, e);
    } else if e.Retry? {
      RetryHandle(limits, s, e);
    } else {
      hide SameShown, Refused, ButtonsOf, OnReply, OnPlainReply, OnResponse, OnRetry, Stale;
    }
  }

  lemma StepHandles(limits: Limits, s: State, e: Event)
    requires Enabled(s, e) && TasksFollow(s) && Handles(s)
    ensures Handles(Apply(limits, s, e))
  {
    hide Apply;
    OthersStay(limits, s, e);
    TaskOfMover(s, e);
    MoverHandle(limits, s, e);
    var t := Apply(limits, s, e);
    forall j: nat | j < |t.calls| && !t.calls[j].task.NoTask? && j !in t.cancelled && t.reporter.deferred != Some(j)
      ensures exists k: nat :: k < |t.calls| && k != j && !t.calls[k].task.NoTask?
    {
      assert !s.calls[j].task.NoTask?;
      if s.reporter.deferred == Some(j) {
        assert e.i != j && !t.calls[e.i].task.NoTask?;
      } else {
        var k: nat :| k < |s.calls| && k != j && !s.calls[k].task.NoTask?;
        assert !t.calls[k].task.NoTask?;
      }
    }
  }

  lemma {:induction false} RunHandles(limits: Limits, requests: seq<Request>, editable: bool, es: seq<Event>, t: State)
    requires Runs(limits, Init(requests, editable), es, t)
    ensures Handles(t)
    decreases |es|
  {
    hide Apply, TasksFollow;
    if es != [] {
      var u, e := es[..|es| - 1], es[|es| - 1];
      var mid :| Runs(limits, Init(requests, editable), u, mid) && Enabled(mid, e) && t == Apply(limits, mid, e);
      RunHandles(limits, requests, editable, u, mid);
      RunTasks(limits, requests, editable, u, mid);
      StepHandles(limits, mid, e);
    }
  }

  /** If only one terminal text was lost and another one gets through by an update, then the
      retry of the lost one has at most one request left that can take effect. */
  lemma OneLostTextIsHarmless(limits: Limits, requests: seq<Request>, editable: bool, es: seq<Event>, s: State, e: Event,
                              fs: seq<Event>, u: State, j: nat)
    requires Runs(limits, Init(requests, editable), es, s) && Enabled(s, e) && Runs(limits, Apply(limits, s, e), fs, u)
    requires j < |s.calls| && forall k :: 0 <= k < |s.calls| && k != j ==> s.calls[k].task.NoTask?
    requires e.i != j && Records(s, e) && s.calls[e.i].req.terminal
    ensures RetryReplies(fs, j) <= if s.calls[j].task.Asking? then 1 else 0
  {
    hide Apply, Runs, TasksFollow, Records;
    RunTasks(limits, requests, editable, es, s);
    RunHandles(limits, requests, editable, es, s);
    StepTasks(limits, s, e);
    OthersStay(limits, s, e);
    DeliveryCancels(limits, s, e, j);
    LatchStopsRetries(limits, Apply(limits, s, e), fs, u, j);
  }

  lemma DeliveryCancels(limits: Limits, s: State, e: Event, j: nat)
    requires Enabled(s, e) && Records(s, e) && s.calls[e.i].req.terminal && e.i != j && j < |s.calls| && Handles(s)
    requires forall k :: 0 <= k < |s.calls| && k != j ==> s.calls[k].task.NoTask?
    ensures Apply(limits, s, e).reporter.delivered && (s.calls[j].task.NoTask? || j in Apply(limits, s, e).cancelled)
  {
    hide Posted, Wiped, ShownBy, TooLong, WaitSeconds, Exceeds;
    assert s.calls[j].task.NoTask? || j in s.cancelled || s.reporter.deferred == Some(j);
  }

  // ------------------------------------------------------------ "the same", once a terminal text got through

  /** A record: an edit, or a new message of an update, that got through. */
  predicate Recording(e: Event) {
    (e.Answer? && Through(Some(e.reply))) || (e.Response? && e.phase.Respond? && e.result.Sent?)
  }

  ghost predicate NoneAsking(s: State) { forall i :: 0 <= i < |s.calls| ==> !s.calls[i].task.Asking? }

  lemma QuietStep(limits: Limits, s: State, e: Event)
    requires Enabled(s, e) && s.reporter.delivered && NoneAsking(s) && TasksFollow(s) && !Recording(e)
    ensures var t := Apply(limits, s, e);
            && t.reporter.delivered && NoneAsking(t) && t.log == s.log
            && t.reporter.lastText == s.reporter.lastText && t.reporter.message == s.reporter.message
  {
    hide Apply;
    TaskOfMover(s, e);
    OthersStay(limits, s, e);
    MoverTaskAfter(limits, s, e);
    LogGrows(limits, s, e);
    RecordMoves(limits, s, e);
    MessageStays(limits, s, e);
  }

  lemma MessageStays(limits: Limits, s: State, e: Event)
    requires Enabled(s, e) && !Recording(e) && !e.Retry?
    ensures Apply(limits, s, e).reporter.message == s.reporter.message
  {
    hide SameShown, Refused, ButtonsOf, OnRetry, Stale, Posted, Wiped, ShownBy, TooLong, WaitSeconds, Exceeds;
  }

  lemma {:induction false} QuietRun(limits: Limits, s: State, fs: seq<Event>, t: State)
    requires Runs(limits, s, fs, t) && s.reporter.delivered && NoneAsking(s) && TasksFollow(s)
    requires forall k :: 0 <= k < |fs| ==> !Recording(fs[k])
    ensures t.reporter.delivered && NoneAsking(t) && TasksFollow(t) && t.log == s.log
    ensures t.reporter.lastText == s.reporter.lastText && t.reporter.message == s.reporter.message
    decreases |fs|
  {
    hide Apply, TasksFollow, NoneAsking;
    if fs != [] {
      var gs, e := fs[..|fs| - 1], fs[|fs| - 1];
      var mid :| Runs(limits, s, gs, mid) && Enabled(mid, e) && t == Apply(limits, mid, e);
      assert forall k :: 0 <= k < |gs| ==> gs[k] == fs[k];
      QuietRun(limits, s, gs, mid);
      QuietStep(limits, mid, e);
      StepTasks(limits, mid, e);
    }
  }

  /** A text that is visible and on record once a terminal text got through, with no retry past
      its checks: an update skipped for it later is right to be exactly when no call that lost its
      own text has deleted the message. */
  lemma SameAfterDelivery(limits: Limits, requests: seq<Request>, editable: bool, es: seq<Event>, s: State,
                          fs: seq<Event>, t: State, i: nat)
    requires Runs(limits, Init(requests, editable), es, s) && s.reporter.delivered && NoneAsking(s)
    requires s.reporter.lastText.Some? && Visible(s, s.reporter.lastText.value)
    requires Runs(limits, s, fs, t) && forall k :: 0 <= k < |fs| ==> !Recording(fs[k])
    requires ReturnsSame(limits, t, i)
    ensures i < |t.calls| && t.reporter.message == s.reporter.message
    ensures Visible(t, t.calls[i].req.text) <==> !Deleted(t.calls, t.reporter.message)
  {
    hide Runs, ReturnsSame, Newest, ChatInv, Deleted, NoneAsking;
    RunTasks(limits, requests, editable, es, s);
    QuietRun(limits, s, fs, t);
    RunsJoin(limits, Init(requests, editable), es, s, fs, t);
    SameIsTrueIff(limits, requests, editable, es + fs, t, i);
    RunChat(limits, requests, editable, es, s);
    assert Newest(s.log, s.reporter.message) == s.reporter.lastText.value by {
      NewestIs(s, s.reporter.lastText.value);
    }
  }

  lemma NewestIs(s: State, text: string)
    requires ChatInv(s) && Visible(s, text)
    ensures Newest(s.log, s.reporter.message) == text
  {
    hide Newest, Deleted;
  }

  // ------------------------------------------------------------ what a retry leaves behind

  /** What a retry has achieved: it edited its text in, sent it as a new message, deleted the old
      message, or overwrote it with the general text. */
  datatype Trail = Trail(edited: bool, sent: bool, wiped: bool, blamed: bool)

  function Onwards(x: Trail, route: Route, ok: bool): Trail {
    if !ok then x
    else
      match route
      case ByEdit => x.(edited := true)
      case Tidy => x.(wiped := true)
      case WipeStale => x.(wiped := true)
      case Blame => x.(blamed := true)
      case _ => x.(sent := true)
  }

  function TrailOf(es: seq<Event>): Trail {
    if es == [] then Trail(false, false, false, false)
    else
      var e := es[|es| - 1];
      if e.Retry? then Onwards(TrailOf(es[..|es| - 1]), e.route, e.ok) else TrailOf(es[..|es| - 1])
  }

  /** Nothing happens but the retry of call `i`. */
  predicate Solo(es: seq<Event>, i: nat) { forall k :: 0 <= k < |es| ==> es[k].i == i && (es[k].Rouse? || es[k].Retry?) }

  /** The chat after a trail: the old message, and a new one if the text was sent. */
  function Trailed(chat: seq<Option<string>>, c: Call, x: Trail): seq<Option<string>>
    requires c.target < |chat|
  {
    chat[c.target := if x.wiped then None else if x.blamed then Some(FAILED_TEXT)
                     else if x.edited then Some(c.req.text) else chat[c.target]]
    + (if x.sent then [Some(c.req.text)] else [])
  }

  /** How far a retry with this trail can be. */
  predicate Fits(task: Task, x: Trail) {
    && (x.edited ==> !x.blamed && !x.sent && (task == Asking(Tidy) || (task.Over?)))
    && (x.sent ==> task == Asking(Tidy) || task.Over?)
    && (x.wiped ==> !x.blamed && (task.Over? || task == Asking(ByClient) || task == Asking(ByLast)))
    && (x.blamed ==> task.Over? || task == Asking(ByClient) || task == Asking(ByLast))
    && (task.Asleep? ==> x == Trail(false, false, false, false))
  }

  /** A sleeping retry, before any terminal text got through. */
  predicate AboutToRetry(s: State, i: nat) {
    && i < |s.calls| && s.calls[i].task.Asleep? && !s.reporter.delivered && i !in s.cancelled
    && s.calls[i].pc == Returned(Lost) && s.calls[i].target < |s.chat|
    && (s.calls[i].wiped ==> s.chat[s.calls[i].target].None?)
  }

  ghost predicate OnTheWay(s: State, u: State, i: nat, x: Trail)
    requires AboutToRetry(s, i)
  {
    && |u.calls| == |s.calls| && i !in u.cancelled && u.calls[i].req == s.calls[i].req && u.calls[i].target == s.calls[i].target
    && u.calls[i].wiped == (s.calls[i].wiped || x.wiped)
    && u.chat == Trailed(s.chat, s.calls[i], x) && Fits(u.calls[i].task, x)
    && (u.calls[i].task.Asleep? ==> !u.reporter.delivered)
  }

  lemma SoloStep(limits: Limits, s: State, mid: State, i: nat, x: Trail, e: Event)
    requires AboutToRetry(s, i) && OnTheWay(s, mid, i, x) && Enabled(mid, e) && e.i == i && e.Retry?
    ensures OnTheWay(s, Apply(limits, mid, e), i, Onwards(x, e.route, e.ok))
  {
    hide Trailed, Cancelling, ShownBy, Effect, Tells;
    RetryCancels(mid, i, e.route, e.ok);
    EffectCalls(mid, mid.calls[i], e.route);
    SoloChat(s, mid, i, x, e.route);
  }

  lemma SoloChat(s: State, mid: State, i: nat, x: Trail, route: Route)
    requires AboutToRetry(s, i) && OnTheWay(s, mid, i, x) && mid.calls[i].task == Asking(route)
    ensures Effect(mid, mid.calls[i], route).chat == Trailed(s.chat, s.calls[i], Onwards(x, route, true))
  {
    hide ShownBy;
    assert |Trailed(s.chat, s.calls[i], x)| == |s.chat| + if x.sent then 1 else 0;
  }

  lemma SoloRouse(limits: Limits, s: State, mid: State, i: nat, x: Trail, e: Event)
    requires AboutToRetry(s, i) && OnTheWay(s, mid, i, x) && Enabled(mid, e) && e.i == i && e.Rouse?
    ensures OnTheWay(s, Apply(limits, mid, e), i, x)
  {
  }

  lemma {:induction false} SoloRun(limits: Limits, s: State, es: seq<Event>, u: State, i: nat)
    requires AboutToRetry(s, i) && Runs(limits, s, es, u) && Solo(es, i)
    ensures OnTheWay(s, u, i, TrailOf(es))
    decreases |es|
  {
    hide Apply, OnTheWay, Onwards, AboutToRetry;
    if es == [] {
      SoloStarts(s, i);
    } else {
      var fs, e := es[..|es| - 1], es[|es| - 1];
      var mid :| Runs(limits, s, fs, mid) && Enabled(mid, e) && u == Apply(limits, mid, e);
      assert forall k :: 0 <= k < |fs| ==> fs[k] == es[k];
      SoloRun(limits, s, fs, mid, i);
      if e.Retry? {
        SoloStep(limits, s, mid, i, TrailOf(fs), e);
      } else {
        SoloRouse(limits, s, mid, i, TrailOf(fs), e);
      }
    }
  }

  lemma SoloStarts(s: State, i: nat)
    requires AboutToRetry(s, i)
    ensures OnTheWay(s, s, i, TrailOf([]))
  {
    assert s.chat + [] == s.chat;
  }

  /** The retry promises that a failure is always indicated and that the stale message never
      stays. Left to itself, the user ends up with an indication exactly when the text was sent as
      a new message, or the general one was put in its place, or the text was edited in and the
      deletion that follows every such edit failed; and the stale message stays exactly when it
      was standing and neither edited nor overwritten nor deleted. */
  lemma HowRetriesEnd(limits: Limits, s: State, es: seq<Event>, u: State, i: nat)
    requires AboutToRetry(s, i) && Runs(limits, s, es, u) && Solo(es, i) && u.calls != [] && i < |u.calls| && u.calls[i].task.Over?
    requires Some(s.calls[i].req.text) !in s.chat && Some(FAILED_TEXT) !in s.chat
    ensures var x, text, old' := TrailOf(es), s.calls[i].req.text, s.calls[i].target;
            && (Some(text) in u.chat || Some(FAILED_TEXT) in u.chat <==> x.sent || x.blamed || (x.edited && !x.wiped))
            && old' < |u.chat|
            && (u.chat[old'].Some? && u.chat[old'] == s.chat[old']
                <==> s.chat[old'].Some? && !x.edited && !x.blamed && !x.wiped)
  {
    hide Runs, Solo, TrailOf, AboutToRetry;
    SoloRun(limits, s, es, u, i);
    TrailShows(s, u, i, TrailOf(es));
  }

  lemma TrailShows(s: State, u: State, i: nat, x: Trail)
    requires AboutToRetry(s, i) && OnTheWay(s, u, i, x)
    requires Some(s.calls[i].req.text) !in s.chat && Some(FAILED_TEXT) !in s.chat
    ensures var text, old' := s.calls[i].req.text, s.calls[i].target;
            && (Some(text) in u.chat || Some(FAILED_TEXT) in u.chat <==> x.sent || x.blamed || (x.edited && !x.wiped))
            && old' < |u.chat|
            && (u.chat[old'].Some? && u.chat[old'] == s.chat[old']
                <==> s.chat[old'].Some? && !x.edited && !x.blamed && !x.wiped)
  {
    var text, m, n := s.calls[i].req.text, s.calls[i].target, |s.chat|;
    assert forall k :: 0 <= k < n && k != m ==> u.chat[k] == s.chat[k];
    assert s.chat[m] in s.chat;
    if x.sent { assert u.chat[n] == Some(text); }
    if x.blamed || (x.edited && !x.wiped) { assert u.chat[m] == Some(text) || u.chat[m] == Some(FAILED_TEXT); }
    if Some(text) in u.chat || Some(FAILED_TEXT) in u.chat {
      var k :| 0 <= k < |u.chat| && (u.chat[k] == Some(text) || u.chat[k] == Some(FAILED_TEXT));
      assert k < n ==> s.chat[k] in s.chat;
    }
  }
}

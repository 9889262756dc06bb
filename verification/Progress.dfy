/** The progress reporter (telegram/progress.py): concurrent `update` coroutines that edit
    one message, cut at the points where they await. */
module Progress {
  import opened Common

  type Buttons = Option<nat>

  /** One `update` call. Whether its text is terminal, whether it reports a failure, and which
      failure buttons belong to it, is decided by functions outside this module. */
  datatype Request = Request(text: string, terminal: bool, isFailure: bool, buttons: Buttons, failureButtons: Buttons)

  /** `max_retries` and `max_wait_seconds`. */
  datatype Limits = Limits(maxRetries: nat, maxWait: nat)

  const NONTERMINAL_MAX_WAIT := 2

  /** What an edit request comes back with. */
  datatype Reply = Applied | NotModified | Flood(seconds: nat) | BadContent | NotEditable | Transient

  /** What a fallback request (a new message, or the deletion of the old one) comes back with. */
  datatype Sending = Sent | Flooded(seconds: nat) | Rejected

  /** A flood error without a number asks for one second. */
  function WaitSeconds(seconds: nat): nat { if seconds == 0 then 1 else seconds }

  // ------------------------------------------------------------ the reporter's fields

  /** `delivered` says that a terminal text got through, `message` is the message `update` edits,
      and `deferred` the call whose background retry the reporter keeps a handle of. */
  datatype Reporter = Reporter(issued: nat, lastApplied: nat, completed: bool, delivered: bool, uneditable: bool,
                               lastText: Option<string>, lastButtons: Buttons, message: nat, deferred: Option<nat>)

  /** The part of `update` before its loop always takes a number and may set the latch. */
  function Entered(r: Reporter, q: Request): Reporter {
    r.(issued := r.issued + 1, completed := r.completed || q.terminal)
  }

  function ButtonsOf(q: Request): Buttons {
    if q.terminal && q.buttons.None? then q.failureButtons else q.buttons
  }

  predicate SameShown(r: Reporter, q: Request) {
    r.lastText == Some(q.text) && (ButtonsOf(q) == r.lastButtons || (!q.terminal && q.buttons.None?))
  }

  predicate Refused(r: Reporter, q: Request) { !q.terminal && (r.completed || r.uneditable) }

  predicate Stale(r: Reporter, terminal: bool, number: nat) {
    !terminal && (r.completed || number < r.lastApplied)
  }

  function Recorded(r: Reporter, number: nat, text: string, buttons: Buttons): Reporter {
    r.(lastText := Some(text), lastButtons := buttons, lastApplied := number, uneditable := false)
  }

  /** `mark_terminal_delivered`, by call `i` or its retry: only its own retry keeps its handle. */
  function Marked(r: Reporter, i: nat): Reporter {
    r.(completed := true, delivered := true, deferred := if r.deferred == Some(i) then r.deferred else None)
  }

  /** A flood wait that is not slept out. */
  predicate TooLong(limits: Limits, terminal: bool, attempts: nat, wait: nat) {
    (!terminal && (attempts > 1 || wait > NONTERMINAL_MAX_WAIT)) || attempts > limits.maxRetries || wait > limits.maxWait
  }

  // ------------------------------------------------------------ coroutines

  /** `Lost`: neither the edit nor a new message got the terminal text through. */
  datatype Outcome = Delivered | Same | Discarded | Overtaken | Skipped | Lost | Cancelled

  /** The fallback first sends a new message, then deletes the old one. */
  datatype Phase = Respond | Delete(shown: bool)

  /** `Sending` and `Pausing` hold the lock, as `call_with_flood_retry` sleeps inside it. */
  datatype Pc =
    | Ready | Waiting | Editing | Plain | Sleeping
    | Undelivered | Sending(phase: Phase, floods: nat) | Pausing(phase: Phase, floods: nat)
    | Returned(outcome: Outcome)

  /** The requests of a background retry. A failure text is edited in (`ByEdit`) or sent as a
      new message (`ByMessage`), and the old message is then deleted (`Tidy`). If neither works the
      old message is deleted (`WipeStale`) or overwritten with a general text (`Blame`), and the text
      is sent by two last routes. Of any other text only `Tidy` is left to do. */
  datatype Route = ByEdit | ByMessage | Tidy | WipeStale | Blame | ByClient | ByLast

  /** The background retry a lost terminal text may leave behind: asleep, past its checks and
      waiting for the reply to a request, or over. */
  datatype Task = NoTask | Asleep | Asking(route: Route) | Over

  /** `target` is the message a call works on; `wiped` says that it, or its retry, deleted it. */
  datatype Call = Call(req: Request, pc: Pc, number: nat, buttons: Buttons, target: nat, wiped: bool, task: Task,
                       attempts: nat, sleeps: nat, slept: nat, edits: nat, sends: nat)

  /** A text the user saw, in order, and on which message. Number 0 is the general text. */
  datatype Shown = Shown(number: nat, terminal: bool, text: string, at: nat)

  /** `chat` holds this request's messages: their text, or None once deleted. `cancelled` are the
      calls whose retry was cancelled. `sealed` remembers that a terminal update has held the lock. */
  datatype State = State(reporter: Reporter, holder: Option<nat>, calls: seq<Call>, log: seq<Shown>,
                         chat: seq<Option<string>>, cancelled: set<nat>, sealed: bool)

  /** `Rouse` ends the sleep of a background retry, `Retry` is the outcome of one of its requests,
      flood waits included. `Cancel` is a cancellation, or an exception `update` does not catch. */
  datatype Event =
    | Enter(i: nat) | Lock(i: nat) | Answer(i: nat, reply: Reply) | Wake(i: nat)
    | FallbackLock(i: nat) | Response(i: nat, phase: Phase, result: Sending)
    | Rouse(i: nat) | Retry(i: nat, route: Route, ok: bool) | Cancel(i: nat)

  predicate InLock(pc: Pc) { pc.Editing? || pc.Plain? || pc.Sending? || pc.Pausing? }

  predicate Awaiting(pc: Pc) { pc.Waiting? || pc.Sleeping? || pc.Undelivered? || InLock(pc) }

  predicate Through(r: Option<Reply>) { r == Some(Applied) || r == Some(NotModified) }

  /** The message is still in the chat; only then can it be edited. */
  predicate Stands(s: State, m: nat) { m < |s.chat| && s.chat[m].Some? }

  predicate Enabled(s: State, e: Event) {
    e.i < |s.calls| &&
    var c := s.calls[e.i];
    match e
    case Enter(_) => c.pc.Ready?
    case Lock(_) => c.pc.Waiting? && s.holder.None?
    case Answer(_, reply) => (c.pc.Editing? || c.pc.Plain?) && (Through(Some(reply)) ==> Stands(s, c.target))
    case Wake(_) => c.pc.Sleeping? || c.pc.Pausing?
    case FallbackLock(_) => c.pc.Undelivered? && s.holder.None?
    case Response(_, phase, _) => c.pc.Sending? && c.pc.phase == phase
    case Rouse(_) => c.task.Asleep?
    case Retry(_, route, ok) => c.task == Asking(route) && (ok && (route.ByEdit? || route.Blame?) ==> Stands(s, c.target))
    case Cancel(_) => Awaiting(c.pc)
  }

  function With(s: State, i: nat, c: Call): State
    requires i < |s.calls|
  {
    s.(calls := s.calls[i := c])
  }

  function Released(s: State): State { s.(holder := None) }

  function ShownBy(c: Call, at: nat): Shown { Shown(c.number, c.req.terminal, c.req.text, at) }

  /** A terminal text that could not be edited in is sent by other means; anything else is dropped. */
  function GivenUp(c: Call): Call { c.(pc := if c.req.terminal then Undelivered else Returned(Skipped)) }

  /** The chat after a text was put into message `m`, or into a new one. */
  function Posted(chat: seq<Option<string>>, m: nat, text: string): seq<Option<string>> {
    if m < |chat| then chat[m := Some(text)] else chat + [Some(text)]
  }

  function Wiped(chat: seq<Option<string>>, m: nat): seq<Option<string>> {
    if m < |chat| then chat[m := None] else chat
  }

  /** Marking a terminal text as delivered cancels the retry the reporter has a handle of. */
  function Cancelling(s: State, i: nat): set<nat> {
    if s.reporter.deferred.Some? && s.reporter.deferred != Some(i) then s.cancelled + {s.reporter.deferred.value}
    else s.cancelled
  }

  /** The text of call `i` reached message `at` and is on record. */
  function OnRecord(s: State, i: nat, c: Call, buttons: Buttons, at: nat): State {
    var r := Recorded(s.reporter, c.number, c.req.text, buttons);
    s.(reporter := if c.req.terminal then Marked(r, i) else r,
       cancelled := if c.req.terminal then Cancelling(s, i) else s.cancelled,
       log := s.log + [ShownBy(c, at)], chat := Posted(s.chat, at, c.req.text))
  }

  function DeliveredBy(s: State, i: nat, buttons: Buttons): State
    requires i < |s.calls|
  {
    var c := s.calls[i];
    OnRecord(With(Released(s), i, c.(pc := Returned(Delivered))), i, c, buttons, c.target)
  }

  function Paused(c: Call, wait: nat): Call { c.(sleeps := c.sleeps + 1, slept := c.slept + wait) }

  function OnFlood(limits: Limits, c: Call, wait: nat): Call {
    var d := c.(attempts := c.attempts + 1);
    if TooLong(limits, c.req.terminal, d.attempts, wait) then GivenUp(d) else Paused(d, wait).(pc := Sleeping)
  }

  function OnReply(limits: Limits, s: State, i: nat, reply: Reply): State
    requires i < |s.calls|
  {
    var c := s.calls[i];
    match reply
    case Applied => DeliveredBy(s, i, c.buttons)
    case NotModified => DeliveredBy(s, i, c.buttons)
    case Flood(seconds) => With(Released(s), i, OnFlood(limits, c, WaitSeconds(seconds)))
    case BadContent => With(s, i, c.(pc := Plain, edits := c.edits + 1, target := s.reporter.message))
    case NotEditable => With(Released(s), i, GivenUp(c)).(reporter := s.reporter.(uneditable := true))
    case Transient => With(Released(s), i, GivenUp(c))
  }

  /** The plain-text retry under the same lock: any error but "not modified" gives up. */
  function OnPlainReply(s: State, i: nat, reply: Reply): State
    requires i < |s.calls|
  {
    if reply.Applied? || reply.NotModified? then DeliveredBy(s, i, None) else With(Released(s), i, GivenUp(s.calls[i]))
  }

  function Requesting(c: Call, phase: Phase, floods: nat): Call {
    c.(pc := Sending(phase, floods), sends := c.sends + 1)
  }

  /** The new message is out, or is not going to be. */
  function AfterRespond(s: State, i: nat, sent: bool): State
    requires i < |s.calls|
  {
    var c := s.calls[i];
    var t := With(s, i, Requesting(c, Delete(sent), 0));
    if !sent then t
    else
      var u := OnRecord(t, i, c, c.buttons, |s.chat|);
      u.(reporter := u.reporter.(message := |s.chat|))
  }

  /** The end of `update` after the deletion. A lost text leaves a background retry unless it
      was no failure and the misleading message is gone. */
  function AfterDelete(s: State, i: nat, shown: bool, deleted: bool): State
    requires i < |s.calls|
  {
    var c := s.calls[i];
    var d := c.(wiped := deleted, pc := Returned(if shown then Delivered else Lost));
    var t := With(Released(s), i, d).(chat := if deleted then Wiped(s.chat, c.target) else s.chat);
    if shown || (deleted && !c.req.isFailure) then t
    else With(t, i, d.(task := Asleep)).(reporter := s.reporter.(deferred := Some(i)))
  }

  function Settled(s: State, i: nat, phase: Phase, ok: bool): State
    requires i < |s.calls|
  {
    if phase.Respond? then AfterRespond(s, i, ok) else AfterDelete(s, i, phase.shown, ok)
  }

  predicate Exceeds(limits: Limits, floods: nat, wait: nat) { floods > limits.maxRetries || wait > limits.maxWait }

  /** One round of `call_with_flood_retry`. */
  function OnResponse(limits: Limits, s: State, i: nat, phase: Phase, floods: nat, result: Sending): State
    requires i < |s.calls|
  {
    match result
    case Sent => Settled(s, i, phase, true)
    case Rejected => Settled(s, i, phase, false)
    case Flooded(seconds) =>
      if Exceeds(limits, floods + 1, WaitSeconds(seconds)) then Settled(s, i, phase, false)
      else With(s, i, Paused(s.calls[i], WaitSeconds(seconds)).(pc := Pausing(phase, floods + 1)))
  }

  function Start(r: Reporter, c: Call): Call {
    c.(number := r.issued + 1, buttons := ButtonsOf(c.req),
       pc := if Refused(r, c.req) then Returned(Discarded) else if SameShown(r, c.req) then Returned(Same) else Waiting)
  }

  function OnWake(s: State, i: nat): Call
    requires i < |s.calls|
  {
    var c := s.calls[i];
    if c.pc.Pausing? then Requesting(c, c.pc.phase, c.pc.floods)
    else c.(pc := if Stale(s.reporter, c.req.terminal, c.number) then Returned(Overtaken) else Waiting)
  }

  /** The first request of a retry. */
  function FirstRoute(c: Call): Route {
    if !c.req.isFailure then Tidy else if c.wiped then ByMessage else ByEdit
  }

  predicate Carries(route: Route) { route.ByEdit? || route.ByMessage? || route.ByClient? || route.ByLast? }

  /** What a retry does after the reply to a request. */
  function NextTask(c: Call, route: Route, ok: bool): Task {
    match route
    case ByEdit => Asking(if ok then Tidy else ByMessage)
    case ByMessage =>
      if ok then (if c.wiped then Over else Asking(Tidy)) else Asking(if c.wiped then ByClient else WipeStale)
    case Tidy => Over
    case WipeStale => Asking(if ok then ByClient else Blame)
    case Blame => Asking(ByClient)
    case ByClient => if ok then Over else Asking(ByLast)
    case ByLast => Over
  }

  /** The text a last edit puts into a message that could not be deleted. */
  const FAILED_TEXT := "DOWNLOAD_FAILED"

  /** Where a route that carries the text shows it. */
  function ShowsAt(s: State, c: Call, route: Route): nat { if route.ByEdit? then c.target else |s.chat| }

  /** What a request that worked changes in the chat. */
  function Effect(s: State, c: Call, route: Route): State {
    if Carries(route) then
      var at := ShowsAt(s, c, route);
      s.(log := s.log + [ShownBy(c, at)], chat := Posted(s.chat, at, c.req.text))
    else if route.Blame? then
      s.(log := s.log + [Shown(0, true, FAILED_TEXT, c.target)], chat := Posted(s.chat, c.target, FAILED_TEXT))
    else s.(chat := Wiped(s.chat, c.target))
  }

  /** What the retry of call `i` tells the reporter when its text got through. */
  function Tells(s: State, i: nat, route: Route): Reporter {
    var r := Marked(s.reporter, i);
    if route.ByMessage? then r.(message := |s.chat|) else r
  }

  /** A reply to the retry of call `i`. A cancelled retry does not hear it any more, but its
      last request may have been carried out. */
  function OnRetry(s: State, i: nat, route: Route, ok: bool): State
    requires i < |s.calls|
  {
    var c := s.calls[i];
    var d := c.(wiped := c.wiped || (ok && (route.Tidy? || route.WipeStale?)));
    var t := if ok then Effect(s, c, route) else s;
    if i in s.cancelled then With(t, i, d.(task := Over))
    else
      var u := With(t, i, d.(task := NextTask(d, route, ok)));
      if ok && Carries(route) then u.(reporter := Tells(s, i, route), cancelled := Cancelling(s, i)) else u
  }

  function Apply(limits: Limits, s: State, e: Event): State
    requires Enabled(s, e)
  {
    var c := s.calls[e.i];
    match e
    case Enter(i) => With(s, i, Start(s.reporter, c)).(reporter := Entered(s.reporter, c.req))
    case Lock(i) =>
      if Stale(s.reporter, c.req.terminal, c.number) then With(s, i, c.(pc := Returned(Overtaken)))
      else With(s, i, c.(pc := Editing, edits := c.edits + 1, target := s.reporter.message))
           .(holder := Some(i), sealed := s.sealed || c.req.terminal)
    case Answer(i, reply) => if c.pc.Editing? then OnReply(limits, s, i, reply) else OnPlainReply(s, i, reply)
    case Wake(i) => With(s, i, OnWake(s, i))
    case FallbackLock(i) =>
      With(s, i, Requesting(c, Respond, 0).(target := s.reporter.message)).(holder := Some(i), sealed := true)
    case Response(i, phase, result) => OnResponse(limits, s, i, phase, c.pc.floods, result)
    case Rouse(i) => With(s, i, c.(task := if s.reporter.delivered then Over else Asking(FirstRoute(c))))
    case Retry(i, route, ok) => OnRetry(s, i, route, ok)
    case Cancel(i) =>
      With(if InLock(c.pc) then Released(s) else s, i, c.(pc := Returned(Cancelled)))
  }

  function NewCall(q: Request): Call { Call(q, Ready, 0, None, 0, false, NoTask, 0, 0, 0, 0, 0) }

  /** The text the message has before the first update; no update has an empty one. */
  const FIRST_TEXT := ""

  function Init(requests: seq<Request>, editable: bool): State {
    State(Reporter(0, 0, false, false, !editable, None, None, 0, None), None,
          seq(|requests|, i requires 0 <= i < |requests| => NewCall(requests[i])), [], [Some(FIRST_TEXT)], {}, false)
  }

  ghost predicate Runs(limits: Limits, s: State, es: seq<Event>, t: State)
    decreases |es|
  {
    if es == [] then s == t
    else
      var u, e := es[..|es| - 1], es[|es| - 1];
      exists mid :: Runs(limits, s, u, mid) && Enabled(mid, e) && t == Apply(limits, mid, e)
  }

  lemma NoSteps(limits: Limits, s: State)
    ensures Runs(limits, s, [], s)
  {
  }

  /** One enabled event after a run. */
  lemma OneMore(limits: Limits, s: State, es: seq<Event>, mid: State, e: Event)
    requires Runs(limits, s, es, mid) && Enabled(mid, e)
    ensures Runs(limits, s, es + [e], Apply(limits, mid, e))
  {
    hide Apply, Enabled;
    var all := es + [e];
    assert all[..|all| - 1] == es && all[|all| - 1] == e;
  }

  lemma {:induction false} RunsJoin(limits: Limits, s: State, es: seq<Event>, t: State, fs: seq<Event>, u: State)
    requires Runs(limits, s, es, t) && Runs(limits, t, fs, u)
    ensures Runs(limits, s, es + fs, u)
    decreases |fs|
  {
    hide Apply, Enabled;
    if fs == [] {
      assert es + fs == es;
    } else {
      var gs, e := fs[..|fs| - 1], fs[|fs| - 1];
      var mid :| Runs(limits, t, gs, mid) && Enabled(mid, e) && u == Apply(limits, mid, e);
      RunsJoin(limits, s, es, t, gs, mid);
      OneMore(limits, s, es + gs, mid, e);
      assert fs == gs + [e] && es + fs == es + gs + [e];
    }
  }

  // ------------------------------------------------------------ invariants

  ghost predicate LockIsHeld(s: State) {
    && (s.holder.Some? ==> s.holder.value < |s.calls|)
    && forall i :: 0 <= i < |s.calls| ==> (InLock(s.calls[i].pc) <==> s.holder == Some(i))
  }

  predicate OnlyTerminal(c: Call) {
    c.pc.Undelivered? || c.pc.Sending? || c.pc.Pausing? || c.pc == Returned(Lost) || !c.task.NoTask?
  }

  ghost predicate LatchFirst(s: State) {
    && (forall i :: 0 <= i < |s.calls| ==> ((!s.calls[i].pc.Ready? || !s.calls[i].task.NoTask?) && s.calls[i].req.terminal
                                            ==> s.reporter.completed))
    && (forall i :: 0 <= i < |s.calls| ==> (OnlyTerminal(s.calls[i]) ==> s.calls[i].req.terminal))
    && (s.sealed ==> s.reporter.completed)
  }

  /** After a terminal update has held the lock, no other kind of update holds it. */
  ghost predicate SealHolds(s: State) {
    && (forall i :: 0 <= i < |s.calls| ==> (s.sealed && InLock(s.calls[i].pc) ==> s.calls[i].req.terminal))
    && (forall i :: 0 <= i < |s.calls| ==> (s.calls[i].req.terminal && (InLock(s.calls[i].pc) || Unsettled(s.calls[i].task))
                                            ==> s.sealed))
    && (forall k :: 0 <= k < |s.log| ==> (s.log[k].terminal ==> s.sealed))
  }

  /** A retry that may still do something. */
  predicate Unsettled(task: Task) { task.Asleep? || task.Asking? }

  /** Only a call that came back with a lost text has a background retry. */
  predicate TaskFollows(c: Call) { c.task.NoTask? || c.pc == Returned(Lost) }

  ghost predicate TasksFollow(s: State) { forall i :: 0 <= i < |s.calls| ==> TaskFollows(s.calls[i]) }

  /** A call whose text has not reached the chat, for now or for good. */
  predicate Active(c: Call) {
    || (Awaiting(c.pc) && !((c.pc.Sending? || c.pc.Pausing?) && c.pc.phase == Delete(true)))
    || (c.pc == Returned(Lost) && !c.task.Over? && !AfterText(c.task))
  }

  /** A retry that only deletes: it has shown its text, or has none to show. */
  predicate AfterText(task: Task) { task == Asking(Tidy) }

  ghost predicate Numbered(s: State) {
    && (forall i :: 0 <= i < |s.calls| ==> (s.calls[i].pc.Ready? || 1 <= s.calls[i].number <= s.reporter.issued))
    && (forall i, j :: 0 <= i < j < |s.calls| && !s.calls[i].pc.Ready? && !s.calls[j].pc.Ready?
                       ==> s.calls[i].number != s.calls[j].number)
    && (forall k :: 0 <= k < |s.log| ==> s.log[k].number <= s.reporter.issued)
  }

  /** Such a call's text is not in the log. */
  ghost predicate NotShownTwice(s: State) {
    forall i, k :: 0 <= i < |s.calls| && 0 <= k < |s.log| && Active(s.calls[i])
                   ==> s.log[k].number != s.calls[i].number
  }

  ghost predicate LogBehind(s: State) {
    !s.sealed ==> forall k :: 0 <= k < |s.log| ==> s.log[k].number <= s.reporter.lastApplied
  }

  ghost predicate HolderAhead(s: State) {
    forall i :: 0 <= i < |s.calls| ==> (InLock(s.calls[i].pc) && !s.calls[i].req.terminal
                                        ==> s.reporter.lastApplied <= s.calls[i].number)
  }

  ghost predicate Ahead(s: State) { LogBehind(s) && HolderAhead(s) }

  /** No status text after a terminal one. */
  ghost predicate TerminalLast(log: seq<Shown>) {
    forall a, b :: 0 <= a < b < |log| && log[a].terminal ==> log[b].terminal
  }

  /** Status texts in the order they were asked for. */
  ghost predicate InOrder(log: seq<Shown>) {
    forall a, b :: 0 <= a < b < |log| && !log[a].terminal && !log[b].terminal ==> log[a].number < log[b].number
  }

  ghost predicate Inv(s: State) {
    && LockIsHeld(s) && TasksFollow(s) && LatchFirst(s) && SealHolds(s) && Numbered(s) && NotShownTwice(s) && Ahead(s)
    && TerminalLast(s.log) && InOrder(s.log)
  }

  /** Only call `i` changes, and not what it was asked to show; its number stays, and it has entered. */
  ghost predicate OnlyCall(s: State, t: State, i: nat) {
    && i < |s.calls| && |t.calls| == |s.calls| && t.calls == s.calls[i := t.calls[i]]
    && t.calls[i].req == s.calls[i].req && t.calls[i].number == s.calls[i].number && !t.calls[i].pc.Ready?
    && t.reporter.issued == s.reporter.issued
  }

  lemma ReplyOnly(limits: Limits, s: State, i: nat, reply: Reply)
    requires i < |s.calls|
    ensures OnlyCall(s, OnReply(limits, s, i, reply), i) && OnlyCall(s, OnPlainReply(s, i, reply), i)
  {
    hide TooLong;
  }

  lemma ResponseOnly(limits: Limits, s: State, i: nat, phase: Phase, floods: nat, result: Sending)
    requires i < |s.calls|
    ensures OnlyCall(s, OnResponse(limits, s, i, phase, floods, result), i)
  {
    hide Exceeds;
  }

  /** A reply to a retry touches neither the coroutine of its call nor what is on record. */
  ghost predicate OnlyRetry(s: State, t: State, i: nat, route: Route, ok: bool) {
    && i < |s.calls| == |t.calls| && t.holder == s.holder && t.sealed == s.sealed
    && t.calls == s.calls[i := s.calls[i].(wiped := t.calls[i].wiped, task := t.calls[i].task)]
    && (t.calls[i].task == Over || (i !in s.cancelled && t.calls[i].task == NextTask(s.calls[i].(wiped := t.calls[i].wiped), route, ok)))
    && SameRecord(s.reporter, t.reporter)
  }

  predicate SameRecord(q: Reporter, r: Reporter) {
    && r.issued == q.issued && r.lastApplied == q.lastApplied && r.uneditable == q.uneditable
    && r.lastText == q.lastText && r.lastButtons == q.lastButtons
    && (q.completed ==> r.completed) && (q.delivered ==> r.delivered)
  }

  lemma EffectCalls(s: State, c: Call, route: Route)
    ensures var t := Effect(s, c, route);
            t.calls == s.calls && t.holder == s.holder && t.sealed == s.sealed && t.reporter == s.reporter && t.cancelled == s.cancelled
  {
    hide ShownBy, Posted, Wiped;
  }

  lemma RetryOnly(s: State, i: nat, route: Route, ok: bool)
    requires i < |s.calls|
    ensures OnlyRetry(s, OnRetry(s, i, route, ok), i, route, ok)
  {
    hide Effect, Cancelling, NextTask;
    EffectCalls(s, s.calls[i], route);
  }

  lemma OthersStay(limits: Limits, s: State, e: Event)
    requires Enabled(s, e)
    ensures |Apply(limits, s, e).calls| == |s.calls|
    ensures Apply(limits, s, e).calls == s.calls[e.i := Apply(limits, s, e).calls[e.i]]
    ensures Apply(limits, s, e).calls[e.i].req == s.calls[e.i].req
  {
    hide Stale, SameShown, Refused, OnReply, OnPlainReply, OnResponse, OnRetry;
    match e
    case Answer(i, reply) => ReplyOnly(limits, s, i, reply);
    case Response(i, phase, result) => ResponseOnly(limits, s, i, phase, s.calls[i].pc.floods, result);
    case Retry(i, route, ok) => RetryOnly(s, i, route, ok);
    case _ =>
  }

  lemma AnswerHolder(limits: Limits, s: State, e: Event)
    requires Enabled(s, e) && e.Answer? && TaskFollows(s.calls[e.i]) && (InLock(s.calls[e.i].pc) <==> s.holder == Some(e.i))
    ensures var t := Apply(limits, s, e);
            && (InLock(t.calls[e.i].pc) <==> t.holder == Some(e.i))
            && (t.holder == s.holder || (t.holder == Some(e.i) && s.holder.None?) || (t.holder.None? && s.holder == Some(e.i)))
  {
    hide TooLong, ShownBy, Recorded, Cancelling, Posted, WaitSeconds;
  }

  lemma ResponseHolder(limits: Limits, s: State, e: Event)
    requires Enabled(s, e) && e.Response? && TaskFollows(s.calls[e.i]) && (InLock(s.calls[e.i].pc) <==> s.holder == Some(e.i))
    ensures var t := Apply(limits, s, e);
            && (InLock(t.calls[e.i].pc) <==> t.holder == Some(e.i))
            && (t.holder == s.holder || (t.holder == Some(e.i) && s.holder.None?) || (t.holder.None? && s.holder == Some(e.i)))
  {
    hide Exceeds, ShownBy, Recorded, Cancelling, Posted, Wiped, WaitSeconds;
  }

  lemma MoverHolder(limits: Limits, s: State, e: Event)
    requires Enabled(s, e) && TaskFollows(s.calls[e.i]) && (InLock(s.calls[e.i].pc) <==> s.holder == Some(e.i))
    ensures var t := Apply(limits, s, e);
            && (InLock(t.calls[e.i].pc) <==> t.holder == Some(e.i))
            && (t.holder == s.holder || (t.holder == Some(e.i) && s.holder.None?) || (t.holder.None? && s.holder == Some(e.i)))
  {
    hide OnReply, OnPlainReply, OnResponse, OnRetry, SameShown, Refused, ButtonsOf, Stale, Recorded;
    match e
    case Answer(_, _) => AnswerHolder(limits, s, e);
    case Response(_, _, _) => ResponseHolder(limits, s, e);
    case Retry(i, route, ok) => RetryOnly(s, i, route, ok);
    case _ =>
  }

  lemma StepLock(limits: Limits, s: State, e: Event)
    requires Enabled(s, e) && TasksFollow(s) && LockIsHeld(s)
    ensures LockIsHeld(Apply(limits, s, e))
  {
    hide Apply, TaskFollows;
    OthersStay(limits, s, e);
    MoverHolder(limits, s, e);
  }

  lemma AnswerTask(limits: Limits, s: State, e: Event)
    requires Enabled(s, e) && e.Answer? && TaskFollows(s.calls[e.i])
    ensures TaskFollows(Apply(limits, s, e).calls[e.i])
  {
    hide TooLong, ShownBy, Recorded, Cancelling, Posted, WaitSeconds;
  }

  lemma ResponseTask(limits: Limits, s: State, e: Event)
    requires Enabled(s, e) && e.Response? && TaskFollows(s.calls[e.i])
    ensures TaskFollows(Apply(limits, s, e).calls[e.i])
  {
    hide Exceeds, ShownBy, Recorded, Cancelling, Posted, Wiped, WaitSeconds;
  }

  lemma MoverTask(limits: Limits, s: State, e: Event)
    requires Enabled(s, e) && TaskFollows(s.calls[e.i])
    ensures TaskFollows(Apply(limits, s, e).calls[e.i])
  {
    hide OnReply, OnPlainReply, OnResponse, OnRetry, SameShown, Refused, ButtonsOf, Stale, Recorded;
    match e
    case Answer(_, _) => AnswerTask(limits, s, e);
    case Response(_, _, _) => ResponseTask(limits, s, e);
    case Retry(i, route, ok) => RetryOnly(s, i, route, ok);
    case _ =>
  }

  lemma StepTasks(limits: Limits, s: State, e: Event)
    requires Enabled(s, e) && TasksFollow(s)
    ensures TasksFollow(Apply(limits, s, e))
  {
    hide Apply, TaskFollows;
    OthersStay(limits, s, e);
    MoverTask(limits, s, e);
  }

  lemma LatchStays(limits: Limits, s: State, e: Event)
    requires Enabled(s, e)
    ensures s.reporter.completed ==> Apply(limits, s, e).reporter.completed
    ensures e.Enter? && s.calls[e.i].req.terminal ==> Apply(limits, s, e).reporter.completed
    ensures s.sealed ==> Apply(limits, s, e).sealed
    ensures Apply(limits, s, e).sealed && !s.sealed ==>
              (e.Lock? && s.calls[e.i].req.terminal) || (e.FallbackLock? && s.calls[e.i].pc.Undelivered?)
    ensures !e.Enter? ==> !s.calls[e.i].pc.Ready? || !s.calls[e.i].task.NoTask?
  {
    hide TooLong, SameShown, Refused, ButtonsOf, ShownBy, Stale, Exceeds, GivenUp, OnRetry, NextTask, Cancelling, Posted, Wiped;
    if e.Retry? {
      RetryOnly(s, e.i, e.route, e.ok);
    }
  }

  lemma AnswerIsTerminal(limits: Limits, s: State, e: Event)
    requires Enabled(s, e) && e.Answer? && (OnlyTerminal(s.calls[e.i]) ==> s.calls[e.i].req.terminal)
    ensures OnlyTerminal(Apply(limits, s, e).calls[e.i]) ==> s.calls[e.i].req.terminal
  {
    hide TooLong, ShownBy, Recorded, Cancelling, Posted, WaitSeconds;
  }

  lemma ResponseIsTerminal(limits: Limits, s: State, e: Event)
    requires Enabled(s, e) && e.Response? && (OnlyTerminal(s.calls[e.i]) ==> s.calls[e.i].req.terminal)
    ensures OnlyTerminal(Apply(limits, s, e).calls[e.i]) ==> s.calls[e.i].req.terminal
  {
    hide Exceeds, ShownBy, Recorded, Cancelling, Posted, Wiped, WaitSeconds;
  }

  lemma FallbackIsTerminal(limits: Limits, s: State, e: Event)
    requires Enabled(s, e) && (OnlyTerminal(s.calls[e.i]) ==> s.calls[e.i].req.terminal)
    ensures OnlyTerminal(Apply(limits, s, e).calls[e.i]) ==> s.calls[e.i].req.terminal
  {
    hide OnReply, OnPlainReply, OnResponse, OnRetry, SameShown, Refused, ButtonsOf, Stale, Recorded;
    match e
    case Answer(_, _) => AnswerIsTerminal(limits, s, e);
    case Response(_, _, _) => ResponseIsTerminal(limits, s, e);
    case Retry(i, route, ok) => RetryOnly(s, i, route, ok);
    case _ =>
  }

  lemma MoverLatch(limits: Limits, s: State, e: Event)
    requires Enabled(s, e) && LatchFirst(s)
    ensures var t := Apply(limits, s, e);
            var c := t.calls[e.i];
            && (s.reporter.completed ==> t.reporter.completed)
            && (c.req.terminal ==> t.reporter.completed)
            && (OnlyTerminal(c) ==> c.req.terminal)
            && (t.sealed ==> t.reporter.completed)
  {
    hide Apply;
    OthersStay(limits, s, e);
    LatchStays(limits, s, e);
    FallbackIsTerminal(limits, s, e);
  }

  lemma StepLatch(limits: Limits, s: State, e: Event)
    requires Enabled(s, e) && LatchFirst(s)
    ensures LatchFirst(Apply(limits, s, e))
  {
    hide Apply;
    OthersStay(limits, s, e);
    MoverLatch(limits, s, e);
  }

  /** How a call gets into the lock, and how it comes to have a retry. */
  predicate Entering(s: State, e: Event, c: Call, d: Call, sealed: bool) {
    && (InLock(d.pc) ==> InLock(c.pc) || (e.Lock? && s.holder.None? && !Stale(s.reporter, c.req.terminal, c.number)
                                          && sealed == (s.sealed || c.req.terminal))
                         || (e.FallbackLock? && s.holder.None? && c.pc.Undelivered? && sealed))
    && (Unsettled(d.task) ==> Unsettled(c.task) || InLock(c.pc))
  }

  lemma AnswerEnters(limits: Limits, s: State, e: Event)
    requires Enabled(s, e) && e.Answer?
    ensures Entering(s, e, s.calls[e.i], Apply(limits, s, e).calls[e.i], Apply(limits, s, e).sealed)
  {
    hide TooLong, ShownBy, Recorded, Cancelling, Posted, WaitSeconds;
  }

  lemma ResponseEnters(limits: Limits, s: State, e: Event)
    requires Enabled(s, e) && e.Response?
    ensures Entering(s, e, s.calls[e.i], Apply(limits, s, e).calls[e.i], Apply(limits, s, e).sealed)
  {
    hide Exceeds, ShownBy, Recorded, Cancelling, Posted, Wiped, WaitSeconds;
  }

  lemma MoverEnters(limits: Limits, s: State, e: Event)
    requires Enabled(s, e)
    ensures Entering(s, e, s.calls[e.i], Apply(limits, s, e).calls[e.i], Apply(limits, s, e).sealed)
  {
    hide OnReply, OnPlainReply, OnResponse, OnRetry, SameShown, Refused, ButtonsOf, Stale;
    match e
    case Answer(_, _) => AnswerEnters(limits, s, e);
    case Response(_, _, _) => ResponseEnters(limits, s, e);
    case Retry(i, route, ok) => RetryOnly(s, i, route, ok);
    case _ =>
  }

  /** What a step does to the seal, and the caller that moves. */
  lemma MoverSeal(limits: Limits, s: State, e: Event)
    requires Enabled(s, e) && LatchFirst(s) && SealHolds(s)
    ensures var t := Apply(limits, s, e);
            var c := t.calls[e.i];
            && (s.sealed ==> t.sealed)
            && (t.sealed ==> s.sealed || s.holder.None?)
            && (t.sealed && InLock(c.pc) ==> c.req.terminal)
            && (c.req.terminal && (InLock(c.pc) || Unsettled(c.task)) ==> t.sealed)
  {
    hide Apply;
    OthersStay(limits, s, e);
    MoverEnters(limits, s, e);
    LatchStays(limits, s, e);
    assert s.sealed ==> s.reporter.completed;
  }

  lemma StepSeal(limits: Limits, s: State, e: Event)
    requires Enabled(s, e) && LockIsHeld(s) && LatchFirst(s) && SealHolds(s)
    ensures SealHolds(Apply(limits, s, e))
  {
    hide Apply;
    OthersStay(limits, s, e);
    MoverSeal(limits, s, e);
    LogGrows(limits, s, e);
    var t := Apply(limits, s, e);
    forall i | 0 <= i < |t.calls| && i != e.i
      ensures t.sealed && InLock(t.calls[i].pc) ==> t.calls[i].req.terminal
      ensures t.calls[i].req.terminal && (InLock(t.calls[i].pc) || Unsettled(t.calls[i].task)) ==> t.sealed
    {
      assert t.calls[i] == s.calls[i];
    }
    if Shows(s, e) || Blames(e) {
      assert InLock(s.calls[e.i].pc) || Unsettled(s.calls[e.i].task);
    }
  }

  lemma MoverNumber(limits: Limits, s: State, e: Event)
    requires Enabled(s, e) && TaskFollows(s.calls[e.i])
    ensures var t := Apply(limits, s, e);
            && t.reporter.issued == (if e.Enter? then s.reporter.issued + 1 else s.reporter.issued)
            && t.calls[e.i].number == (if e.Enter? then t.reporter.issued else s.calls[e.i].number)
            && !t.calls[e.i].pc.Ready? && (s.calls[e.i].pc.Ready? <==> e.Enter?)
  {
    hide SameShown, Refused, ButtonsOf, ShownBy, Stale, OnReply, OnPlainReply, OnResponse, OnRetry;
    match e
    case Answer(i, reply) => ReplyOnly(limits, s, i, reply);
    case Response(i, phase, result) => ResponseOnly(limits, s, i, phase, s.calls[i].pc.floods, result);
    case Retry(i, route, ok) => RetryOnly(s, i, route, ok);
    case _ =>
  }

  lemma StepNumbered(limits: Limits, s: State, e: Event)
    requires Enabled(s, e) && TasksFollow(s) && Numbered(s)
    ensures Numbered(Apply(limits, s, e))
  {
    hide Apply;
    OthersStay(limits, s, e);
    MoverNumber(limits, s, e);
    LogGrows(limits, s, e);
  }

  lemma StepNotTwice(limits: Limits, s: State, e: Event)
    requires Enabled(s, e) && TasksFollow(s) && Numbered(s) && NotShownTwice(s)
    ensures NotShownTwice(Apply(limits, s, e))
  {
    hide Apply;
    OthersStay(limits, s, e);
    MoverNumber(limits, s, e);
    LogGrows(limits, s, e);
    var t := Apply(limits, s, e);
    assert Active(t.calls[e.i]) && !e.Enter? ==> Active(s.calls[e.i]) && !Shows(s, e) by {
      MoverActive(limits, s, e);
    }
    forall i, k | 0 <= i < |t.calls| && 0 <= k < |t.log| && Active(t.calls[i])
      ensures t.log[k].number != t.calls[i].number
    {
      if i != e.i {
        assert t.calls[i] == s.calls[i];
      }
    }
  }

  lemma MoverActive(limits: Limits, s: State, e: Event)
    requires Enabled(s, e) && TaskFollows(s.calls[e.i])
    ensures Active(Apply(limits, s, e).calls[e.i]) && !e.Enter? ==> Active(s.calls[e.i]) && !Shows(s, e)
  {
    hide TooLong, SameShown, Refused, ButtonsOf, ShownBy, Stale, Recorded, OnRetry, Cancelling, Posted, Wiped;
    if e.Retry? {
      RetryOnly(s, e.i, e.route, e.ok);
    }
  }

  /** The event that shows call `e.i`'s text to the user. */
  predicate Shows(s: State, e: Event)
    requires Enabled(s, e)
  {
    match e
    case Answer(_, reply) => reply.Applied? || reply.NotModified?
    case Response(_, phase, result) => phase.Respond? && result.Sent?
    case Retry(_, route, ok) => ok && Carries(route)
    case _ => false
  }

  /** The event that overwrites the old message with the general text. */
  predicate Blames(e: Event) { e.Retry? && e.route.Blame? && e.ok }

  /** Where the text of call `e.i` is shown. */
  function ShownWhere(s: State, e: Event): nat
    requires Enabled(s, e)
  {
    match e
    case Response(_, _, _) => |s.chat|
    case Retry(_, route, _) => ShowsAt(s, s.calls[e.i], route)
    case _ => s.calls[e.i].target
  }

  lemma RetryLog(s: State, i: nat, route: Route, ok: bool)
    requires i < |s.calls|
    ensures OnRetry(s, i, route, ok).log ==
            if ok && Carries(route) then s.log + [ShownBy(s.calls[i], ShowsAt(s, s.calls[i], route))]
            else if ok && route.Blame? then s.log + [Shown(0, true, FAILED_TEXT, s.calls[i].target)] else s.log
  {
    hide ShownBy, Posted, Wiped, NextTask, Tells, Cancelling;
  }

  lemma LogGrows(limits: Limits, s: State, e: Event)
    requires Enabled(s, e)
    ensures Apply(limits, s, e).log ==
            if Shows(s, e) then s.log + [ShownBy(s.calls[e.i], ShownWhere(s, e))]
            else if Blames(e) then s.log + [Shown(0, true, FAILED_TEXT, s.calls[e.i].target)] else s.log
  {
    hide Stale, TooLong, SameShown, Refused, ButtonsOf, ShownBy, OnRetry, Posted, Wiped, Cancelling;
    if e.Retry? {
      RetryLog(s, e.i, e.route, e.ok);
    }
  }

  lemma AppliedGrows(limits: Limits, s: State, e: Event)
    requires Enabled(s, e)
    ensures var t := Apply(limits, s, e);
            t.reporter.lastApplied == if Shows(s, e) && !e.Retry? then s.calls[e.i].number else s.reporter.lastApplied
    ensures s.sealed ==> Apply(limits, s, e).sealed
  {
    hide Stale, TooLong, SameShown, Refused, ButtonsOf, ShownBy, OnRetry, NextTask, Cancelling, Posted, Wiped;
    if e.Retry? {
      RetryOnly(s, e.i, e.route, e.ok);
    }
  }

  lemma StepLogBehind(limits: Limits, s: State, e: Event)
    requires Enabled(s, e) && LatchFirst(s) && SealHolds(s) && Ahead(s)
    ensures LogBehind(Apply(limits, s, e))
  {
    hide Apply;
    LogGrows(limits, s, e);
    AppliedGrows(limits, s, e);
    var c := s.calls[e.i];
    if Shows(s, e) || Blames(e) {
      assert InLock(c.pc) || Unsettled(c.task);
      assert c.req.terminal ==> s.sealed;
    }
  }

  lemma StepHolderAhead(limits: Limits, s: State, e: Event)
    requires Enabled(s, e) && LockIsHeld(s) && TasksFollow(s) && LatchFirst(s) && HolderAhead(s)
    ensures HolderAhead(Apply(limits, s, e))
  {
    hide Apply;
    AppliedGrows(limits, s, e);
    OthersStay(limits, s, e);
    MoverAhead(limits, s, e);
    var t := Apply(limits, s, e);
    forall i | 0 <= i < |t.calls| && InLock(t.calls[i].pc) && !t.calls[i].req.terminal
      ensures t.reporter.lastApplied <= t.calls[i].number
    {
      if i != e.i {
        assert t.calls[i] == s.calls[i];
        assert s.holder == Some(i);
        assert !InLock(s.calls[e.i].pc);
      }
    }
  }

  /** A status update is inside the lock because it was, or because it found itself up to date. */
  lemma MoverInLock(limits: Limits, s: State, e: Event)
    requires Enabled(s, e) && LatchFirst(s)
    ensures var t := Apply(limits, s, e);
            InLock(t.calls[e.i].pc) && !s.calls[e.i].req.terminal ==>
              && !Shows(s, e) && !e.Enter?
              && (InLock(s.calls[e.i].pc) || s.reporter.lastApplied <= s.calls[e.i].number)
  {
    hide TooLong, SameShown, Refused, ButtonsOf, ShownBy, Recorded, OnRetry, NextTask, Cancelling, Posted, Wiped;
    if e.Retry? {
      RetryOnly(s, e.i, e.route, e.ok);
    }
  }

  lemma MoverAhead(limits: Limits, s: State, e: Event)
    requires Enabled(s, e) && TasksFollow(s) && LatchFirst(s) && HolderAhead(s)
    ensures var t := Apply(limits, s, e);
            InLock(t.calls[e.i].pc) && !t.calls[e.i].req.terminal ==> t.reporter.lastApplied <= t.calls[e.i].number
  {
    hide Apply;
    OthersStay(limits, s, e);
    AppliedGrows(limits, s, e);
    MoverNumber(limits, s, e);
    MoverInLock(limits, s, e);
  }

  /** Appending keeps both orders: a status text is only shown by the lock's holder, before
      any terminal update held the lock, and it is newer than everything shown. */
  lemma StepOrder(limits: Limits, s: State, e: Event)
    requires Enabled(s, e) && Inv(s)
    ensures TerminalLast(Apply(limits, s, e).log) && InOrder(Apply(limits, s, e).log)
  {
    hide Apply, LockIsHeld, Numbered;
    LogGrows(limits, s, e);
    if Shows(s, e) && !s.calls[e.i].req.terminal {
      assert InLock(s.calls[e.i].pc);
      forall k | 0 <= k < |s.log| ensures s.log[k].number < s.calls[e.i].number && !s.log[k].terminal {
        assert s.log[k].number <= s.reporter.lastApplied;
      }
    }
  }

  lemma {:induction false} InitInv(requests: seq<Request>, editable: bool)
    ensures Inv(Init(requests, editable))
  {
  }

  lemma StepInv(limits: Limits, s: State, e: Event)
    requires Enabled(s, e) && Inv(s)
    ensures Inv(Apply(limits, s, e))
  {
    hide Apply, LockIsHeld, TasksFollow, LatchFirst, SealHolds, Numbered, NotShownTwice, LogBehind, HolderAhead, TerminalLast, InOrder;
    StepLock(limits, s, e);
    StepTasks(limits, s, e);
    StepLatch(limits, s, e);
    StepSeal(limits, s, e);
    StepNumbered(limits, s, e);
    StepNotTwice(limits, s, e);
    assert LogBehind(Apply(limits, s, e)) && HolderAhead(Apply(limits, s, e)) by {
      StepLogBehind(limits, s, e);
      StepHolderAhead(limits, s, e);
    }
    StepOrder(limits, s, e);
  }

  lemma {:induction false} RunInv(limits: Limits, requests: seq<Request>, editable: bool, es: seq<Event>, t: State)
    requires Runs(limits, Init(requests, editable), es, t)
    ensures Inv(t)
    decreases |es|
  {
    hide Inv, Apply;
    if es == [] {
      InitInv(requests, editable);
    } else {
      var u, e := es[..|es| - 1], es[|es| - 1];
      var mid :| Runs(limits, Init(requests, editable), u, mid) && Enabled(mid, e) && t == Apply(limits, mid, e);
      RunInv(limits, requests, editable, u, mid);
      StepInv(limits, mid, e);
    }
  }

  // ------------------------------------------------------------ what every interleaving keeps

  /** However the coroutines interleave, and however long some of them slept on a flood wait,
      no status text is shown after a terminal one, and the status texts that are shown come
      in the order of their `update` calls. */
  lemma NothingAfterTheEnd(limits: Limits, requests: seq<Request>, editable: bool, es: seq<Event>, t: State)
    requires Runs(limits, Init(requests, editable), es, t)
    ensures TerminalLast(t.log) && InOrder(t.log)
  {
    hide LockIsHeld, LatchFirst, SealHolds, Numbered, NotShownTwice, Ahead, TerminalLast, InOrder;
    RunInv(limits, requests, editable, es, t);
  }

  /** From the moment a terminal update holds the lock, no status edit is even requested. */
  lemma NoStatusEditOnceSealed(limits: Limits, requests: seq<Request>, editable: bool, es: seq<Event>, t: State, e: Event)
    requires Runs(limits, Init(requests, editable), es, t) && t.sealed && Enabled(t, e)
    requires !t.calls[e.i].req.terminal
    ensures var u := Apply(limits, t, e);
            |u.calls| == |t.calls| && u.calls[e.i].edits == t.calls[e.i].edits && u.log == t.log
  {
    hide Apply, Inv, Numbered, NotShownTwice, Ahead, TerminalLast, InOrder;
    RunInv(limits, requests, editable, es, t);
    OthersStay(limits, t, e);
    LogGrows(limits, t, e);
    StatusOutside(t, e);
    NoEdit(limits, t, e);
  }

  lemma StatusOutside(t: State, e: Event)
    requires Inv(t) && t.sealed && Enabled(t, e) && !t.calls[e.i].req.terminal
    ensures !InLock(t.calls[e.i].pc) && t.reporter.completed && !OnlyTerminal(t.calls[e.i])
  {
    hide Numbered, NotShownTwice, Ahead, TerminalLast, InOrder;
  }

  lemma NoEdit(limits: Limits, t: State, e: Event)
    requires Enabled(t, e) && !t.calls[e.i].req.terminal && t.reporter.completed
    requires !InLock(t.calls[e.i].pc) && !OnlyTerminal(t.calls[e.i])
    ensures var u := Apply(limits, t, e); |u.calls| == |t.calls| && u.calls[e.i].edits == t.calls[e.i].edits
  {
    hide SameShown, Refused, ButtonsOf, OnReply, OnPlainReply, OnResponse, OnRetry;
  }

  // ------------------------------------------------------------ costs

  function Waits(n: nat, wait: nat): nat { if n == 0 then 0 else Waits(n - 1, wait) + wait }

  /** Flood waits one call may sleep out in its edit loop, and the longest of them. */
  function EditSleeps(limits: Limits, q: Request): nat {
    if q.terminal then limits.maxRetries else Min(limits.maxRetries, 1)
  }

  function MaxWait(limits: Limits, q: Request): nat {
    if q.terminal then limits.maxWait else Min(limits.maxWait, NONTERMINAL_MAX_WAIT)
  }

  /** A terminal call may go on to sleep as often for the new message, and again for the deletion. */
  function AllSleeps(limits: Limits, q: Request): nat {
    if q.terminal then 3 * limits.maxRetries else EditSleeps(limits, q)
  }

  function AllSends(limits: Limits, q: Request): nat { if q.terminal then 2 * limits.maxRetries + 2 else 0 }

  /** Sleeps and requests before a phase of the fallback begins. */
  function SleepsBefore(limits: Limits, phase: Phase): nat {
    if phase.Respond? then limits.maxRetries else 2 * limits.maxRetries
  }

  function SendsBefore(limits: Limits, phase: Phase): nat { if phase.Respond? then 0 else limits.maxRetries + 1 }

  predicate InBudget(limits: Limits, c: Call) {
    && c.sleeps <= AllSleeps(limits, c.req)
    && c.slept <= Waits(c.sleeps, MaxWait(limits, c.req))
    && c.edits <= EditSleeps(limits, c.req) + 2
    && c.sends <= AllSends(limits, c.req)
  }

  /** How far a call has got with its budget, place by place. */
  predicate Cheap(limits: Limits, c: Call) {
    && InBudget(limits, c)
    && (c.pc.Ready? ==> c.edits == c.attempts == c.sleeps == c.sends == 0)
    && (c.pc.Waiting? || c.pc.Sleeping? ==> c.edits == c.attempts == c.sleeps <= EditSleeps(limits, c.req) && c.sends == 0)
    && (c.pc.Editing? ==> c.edits == c.attempts + 1 && c.attempts == c.sleeps <= EditSleeps(limits, c.req) && c.sends == 0)
    && (c.pc.Plain? ==> c.edits == c.attempts + 2 && c.attempts == c.sleeps <= EditSleeps(limits, c.req) && c.sends == 0)
    && (c.pc.Undelivered? ==> c.req.terminal && c.sleeps <= limits.maxRetries && c.sends == 0)
    && (c.pc.Sending? ==> c.req.terminal && c.pc.floods <= limits.maxRetries
                          && c.sleeps <= SleepsBefore(limits, c.pc.phase) + c.pc.floods
                          && c.sends <= SendsBefore(limits, c.pc.phase) + c.pc.floods + 1)
    && (c.pc.Pausing? ==> c.req.terminal && c.pc.floods <= limits.maxRetries
                          && c.sleeps <= SleepsBefore(limits, c.pc.phase) + c.pc.floods
                          && c.sends <= SendsBefore(limits, c.pc.phase) + c.pc.floods)
  }

  ghost predicate AllCheap(limits: Limits, s: State) {
    forall i :: 0 <= i < |s.calls| ==> Cheap(limits, s.calls[i])
  }

  lemma OneMoreWait(n: nat, wait: nat)
    ensures Waits(n + 1, wait) == Waits(n, wait) + wait
  {
  }

  /** Where an edit's reply can leave its call. */
  lemma AnswerShape(limits: Limits, s: State, e: Event)
    requires Enabled(s, e) && e.Answer?
    ensures var c, d := s.calls[e.i], Apply(limits, s, e).calls[e.i];
            || d == c.(pc := Returned(Delivered))
            || d == GivenUp(c)
            || (c.pc.Editing? && d == c.(pc := Plain, edits := c.edits + 1, target := d.target))
            || (c.pc.Editing? && e.reply.Flood? && d == OnFlood(limits, c, WaitSeconds(e.reply.seconds)))
  {
    hide OnFlood, GivenUp, Recorded, ShownBy, WaitSeconds;
  }

  /** Where the reply to a fallback request can leave its call. */
  lemma ResponseShape(limits: Limits, s: State, e: Event)
    requires Enabled(s, e) && e.Response?
    ensures var c, d := s.calls[e.i], Apply(limits, s, e).calls[e.i];
            || (c.pc.phase.Respond? && exists shown :: d == Requesting(c, Delete(shown), 0))
            || (c.pc.phase.Delete? && d == c.(pc := Returned(Delivered), wiped := d.wiped))
            || (c.pc.phase.Delete? && d == c.(pc := Returned(Lost), wiped := d.wiped, task := d.task)
                && d.task in {c.task, Asleep})
            || (e.result.Flooded? && !Exceeds(limits, c.pc.floods + 1, WaitSeconds(e.result.seconds))
                && d == Paused(c, WaitSeconds(e.result.seconds)).(pc := Pausing(c.pc.phase, c.pc.floods + 1)))
  {
    hide Recorded, ShownBy, WaitSeconds, Exceeds, Paused, Requesting;
    var c := s.calls[e.i];
    assert With(s, e.i, Requesting(c, Delete(true), 0)).calls[e.i] == Requesting(c, Delete(true), 0);
    assert With(s, e.i, Requesting(c, Delete(false), 0)).calls[e.i] == Requesting(c, Delete(false), 0);
  }

  lemma FloodIsCheap(limits: Limits, c: Call, wait: nat)
    requires Cheap(limits, c) && c.pc.Editing?
    ensures Cheap(limits, OnFlood(limits, c, wait))
  {
    hide Waits;
    OneMoreWait(c.sleeps, MaxWait(limits, c.req));
  }

  lemma AnswerIsCheap(limits: Limits, s: State, e: Event)
    requires Enabled(s, e) && Cheap(limits, s.calls[e.i]) && e.Answer?
    ensures Cheap(limits, Apply(limits, s, e).calls[e.i])
  {
    hide Apply, Waits, OnFlood, WaitSeconds;
    AnswerShape(limits, s, e);
    if s.calls[e.i].pc.Editing? && e.reply.Flood? {
      FloodIsCheap(limits, s.calls[e.i], WaitSeconds(e.reply.seconds));
    }
  }

  lemma RetryIsCheap(limits: Limits, s: State, e: Event)
    requires Enabled(s, e) && Cheap(limits, s.calls[e.i]) && e.Retry?
    ensures Cheap(limits, Apply(limits, s, e).calls[e.i])
  {
    hide OnRetry, Waits, NextTask, MaxWait;
    RetryOnly(s, e.i, e.route, e.ok);
  }

  lemma OtherStepIsCheap(limits: Limits, s: State, e: Event)
    requires Enabled(s, e) && Cheap(limits, s.calls[e.i]) && !e.Response? && !e.Answer? && !e.Retry?
    ensures Cheap(limits, Apply(limits, s, e).calls[e.i])
  {
    hide Waits, Stale, SameShown, Refused, Recorded, Entered, ButtonsOf, OnReply, OnPlainReply, OnResponse, MaxWait, OnRetry, NextTask, Cancelling, Posted, Wiped;
  }

  lemma ResponseIsCheap(limits: Limits, s: State, e: Event)
    requires Enabled(s, e) && Cheap(limits, s.calls[e.i]) && e.Response?
    ensures Cheap(limits, Apply(limits, s, e).calls[e.i])
  {
    hide Apply, Waits, WaitSeconds;
    ResponseShape(limits, s, e);
    OneMoreWait(s.calls[e.i].sleeps, MaxWait(limits, s.calls[e.i].req));
  }

  lemma StepCheap(limits: Limits, s: State, e: Event)
    requires Enabled(s, e) && AllCheap(limits, s)
    ensures AllCheap(limits, Apply(limits, s, e))
  {
    hide Apply, Cheap;
    assert Cheap(limits, s.calls[e.i]);
    OthersStay(limits, s, e);
    if e.Response? {
      ResponseIsCheap(limits, s, e);
    } else if e.Answer? {
      AnswerIsCheap(limits, s, e);
    } else if e.Retry? {
      RetryIsCheap(limits, s, e);
    } else {
      OtherStepIsCheap(limits, s, e);
    }
  }

  lemma {:induction false} RunCheap(limits: Limits, requests: seq<Request>, editable: bool, es: seq<Event>, t: State)
    requires Runs(limits, Init(requests, editable), es, t)
    ensures AllCheap(limits, t)
    decreases |es|
  {
    hide Apply;
    if es != [] {
      var u, e := es[..|es| - 1], es[|es| - 1];
      var mid :| Runs(limits, Init(requests, editable), u, mid) && Enabled(mid, e) && t == Apply(limits, mid, e);
      RunCheap(limits, requests, editable, u, mid);
      StepCheap(limits, mid, e);
    }
  }

  /** What one `update` costs at most. A status text sleeps out one wait of two seconds; a
      terminal one `max_retries` waits of `max_wait_seconds` in each of its three rounds of
      requests: the edit, the new message, and the deletion of the old one. */
  lemma UpdateCost(limits: Limits, requests: seq<Request>, editable: bool, es: seq<Event>, t: State, i: nat)
    requires Runs(limits, Init(requests, editable), es, t) && i < |t.calls|
    ensures var c := t.calls[i];
            && c.sleeps <= (if c.req.terminal then 3 * limits.maxRetries else Min(limits.maxRetries, 1))
            && c.slept <= c.sleeps * (if c.req.terminal then limits.maxWait else Min(limits.maxWait, NONTERMINAL_MAX_WAIT))
            && c.edits <= (if c.req.terminal then limits.maxRetries else Min(limits.maxRetries, 1)) + 2
            && c.sends <= (if c.req.terminal then 2 * limits.maxRetries + 2 else 0)
  {
    RunCheap(limits, requests, editable, es, t);
    assert Cheap(limits, t.calls[i]);
    WaitsIs(t.calls[i].sleeps, MaxWait(limits, t.calls[i].req));
  }

  lemma {:induction false} WaitsIs(n: nat, wait: nat)
    ensures Waits(n, wait) == n * wait
  {
    if n > 0 {
      WaitsIs(n - 1, wait);
    }
  }

  // ------------------------------------------------------------ every run ends

  function Left(limits: Limits, floods: nat): nat { Max(limits.maxRetries + 1 - floods, 0) }

  /** Steps a call's coroutine can still take. */
  function PcRank(limits: Limits, c: Call): nat {
    var r := limits.maxRetries;
    match c.pc
    case Ready => 7 * r + 22
    case Sleeping => 3 * Left(limits, c.attempts) + 4 * r + 19
    case Waiting => 3 * Left(limits, c.attempts) + 4 * r + 18
    case Editing => 3 * Left(limits, c.attempts) + 4 * r + 17
    case Plain => 4 * r + 17
    case Undelivered => 4 * r + 16
    case Pausing(phase, floods) => 2 * Left(limits, floods) + 10 + (if phase.Respond? then 2 * r + 4 else 0)
    case Sending(phase, floods) => 2 * Left(limits, floods) + 9 + (if phase.Respond? then 2 * r + 4 else 0)
    case Returned(_) => 0
  }

  /** Steps of the coroutine and of its background retry. */
  function Rank(limits: Limits, c: Call): nat { PcRank(limits, c) + TaskRank(c.task) }

  function TaskRank(task: Task): nat {
    match task
    case Asleep => 8
    case Asking(route) =>
      (match route
       case ByEdit => 7
       case ByMessage => 6
       case WipeStale => 5
       case Blame => 4
       case ByClient => 3
       case ByLast => 2
       case Tidy => 1)
    case _ => 0
  }

  function Ranks(limits: Limits, calls: seq<Call>): nat {
    if calls == [] then 0 else Ranks(limits, calls[..|calls| - 1]) + Rank(limits, calls[|calls| - 1])
  }

  lemma {:induction false} RanksUpdate(limits: Limits, calls: seq<Call>, i: nat, c: Call)
    requires i < |calls|
    ensures Ranks(limits, calls[i := c]) == Ranks(limits, calls) - Rank(limits, calls[i]) + Rank(limits, c)
  {
    hide Rank;
    var last := |calls| - 1;
    if i == last {
      assert calls[i := c][..last] == calls[..last];
    } else {
      assert calls[i := c][..last] == calls[..last][i := c];
      RanksUpdate(limits, calls[..last], i, c);
    }
  }

  lemma AnswerRankFalls(limits: Limits, s: State, e: Event)
    requires Enabled(s, e) && Cheap(limits, s.calls[e.i]) && e.Answer?
    ensures Rank(limits, Apply(limits, s, e).calls[e.i]) < Rank(limits, s.calls[e.i])
  {
    hide Apply, InBudget, WaitSeconds;
    AnswerShape(limits, s, e);
  }

  lemma RetryRankFalls(limits: Limits, s: State, e: Event)
    requires Enabled(s, e) && Cheap(limits, s.calls[e.i]) && TaskFollows(s.calls[e.i]) && e.Retry?
    ensures Rank(limits, Apply(limits, s, e).calls[e.i]) < Rank(limits, s.calls[e.i])
  {
    hide OnRetry, InBudget;
    RetryOnly(s, e.i, e.route, e.ok);
  }

  lemma OtherRankFalls(limits: Limits, s: State, e: Event)
    requires Enabled(s, e) && Cheap(limits, s.calls[e.i]) && TaskFollows(s.calls[e.i]) && !e.Response? && !e.Answer? && !e.Retry?
    ensures Rank(limits, Apply(limits, s, e).calls[e.i]) < Rank(limits, s.calls[e.i])
  {
    hide InBudget, Stale, SameShown, Refused, Recorded, Entered, ButtonsOf, OnReply, OnPlainReply, OnResponse, OnRetry, Cancelling, Posted, Wiped;
  }

  lemma ResponseRankFalls(limits: Limits, s: State, e: Event)
    requires Enabled(s, e) && Cheap(limits, s.calls[e.i]) && TaskFollows(s.calls[e.i]) && e.Response?
    ensures Rank(limits, Apply(limits, s, e).calls[e.i]) < Rank(limits, s.calls[e.i])
  {
    hide Apply, InBudget, WaitSeconds;
    ResponseShape(limits, s, e);
  }

  lemma {:induction false} StepsAreBounded(limits: Limits, requests: seq<Request>, editable: bool, es: seq<Event>, t: State)
    requires Runs(limits, Init(requests, editable), es, t)
    ensures |es| + Ranks(limits, t.calls) <= Ranks(limits, Init(requests, editable).calls)
    decreases |es|
  {
    hide Apply, Rank, Ranks, Cheap;
    if es != [] {
      var u, e := es[..|es| - 1], es[|es| - 1];
      var mid :| Runs(limits, Init(requests, editable), u, mid) && Enabled(mid, e) && t == Apply(limits, mid, e);
      StepsAreBounded(limits, requests, editable, u, mid);
      RunCheap(limits, requests, editable, u, mid);
      RunInv(limits, requests, editable, u, mid);
      if e.Response? {
        ResponseRankFalls(limits, mid, e);
      } else if e.Answer? {
        AnswerRankFalls(limits, mid, e);
      } else if e.Retry? {
        RetryRankFalls(limits, mid, e);
      } else {
        OtherRankFalls(limits, mid, e);
      }
      OthersStay(limits, mid, e);
      RanksUpdate(limits, mid.calls, e.i, t.calls[e.i]);
    }
  }

  lemma {:induction false} InitialRanks(limits: Limits, requests: seq<Request>, editable: bool)
    ensures Ranks(limits, Init(requests, editable).calls) == |requests| * (7 * limits.maxRetries + 22)
  {
    if requests != [] {
      var less := requests[..|requests| - 1];
      InitialRanks(limits, less, editable);
      assert Init(requests, editable).calls[..|less|] == Init(less, editable).calls;
      assert |requests| == |less| + 1;
    }
  }

  /** The next step of some coroutine itself: neither a cancellation nor a background retry. */
  predicate OwnStep(s: State, e: Event) { Enabled(s, e) && !e.Cancel? && !e.Rouse? && !e.Retry? }

  predicate AllReturned(s: State) { forall i :: 0 <= i < |s.calls| ==> s.calls[i].pc.Returned? }

  /** Every run ends: n calls take at most n(7·max_retries + 22) steps together. And the lock
      never blocks for good: until every call returned, some coroutine has a step of its own. */
  lemma UpdatesEnd(limits: Limits, requests: seq<Request>, editable: bool, es: seq<Event>, t: State)
    requires Runs(limits, Init(requests, editable), es, t)
    ensures |es| <= |requests| * (7 * limits.maxRetries + 22)
    ensures !AllReturned(t) ==> exists e :: OwnStep(t, e)
  {
    hide Apply, Rank, Ranks, Cheap, TasksFollow, LatchFirst, SealHolds, Numbered, NotShownTwice, Ahead, TerminalLast, InOrder;
    StepsAreBounded(limits, requests, editable, es, t);
    InitialRanks(limits, requests, editable);
    RunInv(limits, requests, editable, es, t);
    if !AllReturned(t) {
      SomeoneCanMove(t);
    }
  }

  /** Whoever holds the lock gets its reply or wakes up; with the lock free anyone can go on. */
  lemma SomeoneCanMove(t: State)
    requires LockIsHeld(t) && !AllReturned(t)
    ensures exists e :: OwnStep(t, e)
  {
    var i :| 0 <= i < |t.calls| && !t.calls[i].pc.Returned?;
    var j := if t.holder.Some? then t.holder.value else i;
    match t.calls[j].pc
    case Ready => assert OwnStep(t, Enter(j));
    case Waiting => assert OwnStep(t, Lock(j));
    case Editing => assert OwnStep(t, Answer(j, Transient));
    case Plain => assert OwnStep(t, Answer(j, Transient));
    case Sleeping => assert OwnStep(t, Wake(j));
    case Undelivered => assert OwnStep(t, FallbackLock(j));
    case Sending(phase, _) => assert OwnStep(t, Response(j, phase, Sent));
    case Pausing(_, _) => assert OwnStep(t, Wake(j));
  }

}

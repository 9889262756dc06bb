/** The reporter as an object (telegram/progress.py, `MessageProgressReporter`): its fields,
    and one `update` from beginning to end, proved to be a run of the step relation. */
module ProgressReporter {
  import opened Common
  import opened Progress
  import opened ProgressEnds

  /** Whether the message still stands, and what the outside will answer: `reply(k)` to the k-th
      edit, `plain` to the retry without markup, `message(k)` and `deletion(k)` to the k-th
      requests of the two fallback phases. */
  datatype World = World(stands: bool, reply: nat -> Reply, plain: Reply, message: nat -> Sending, deletion: nat -> Sending)

  /** A deleted message cannot be edited. */
  ghost predicate Possible(w: World) {
    !w.stands ==> !Through(Some(w.plain)) && forall k: nat :: !Through(Some(w.reply(k)))
  }

  /** The lone call is number 0; whoever left a background retry before it stands for number 1. */
  const EARLIER: nat := 1

  /** One call on its own, from a reporter in any state. */
  function Alone(w: World, r: Reporter, q: Request): State {
    State(r, None, [NewCall(q)], [], seq(r.message + 1, _ => if w.stands then Some(FIRST_TEXT) else None), {}, false)
  }

  /** The reporter as the next call finds it. */
  function Kept(r: Reporter): Reporter { r.(deferred := if r.deferred.Some? then Some(EARLIER) else None) }

  // ------------------------------------------------------------ replies heard so far

  ghost function Answers(es: seq<Event>): nat {
    if es == [] then 0 else Answers(es[..|es| - 1]) + if es[|es| - 1].Answer? then 1 else 0
  }

  /** Replies to new messages, or to deletions. */
  ghost function Responses(es: seq<Event>, deletions: bool): nat {
    if es == [] then 0
    else
      var e := es[|es| - 1];
      Responses(es[..|es| - 1], deletions) + if e.Response? && e.phase.Delete? == deletions then 1 else 0
  }

  function Replies(w: World, phase: Phase): nat -> Sending { if phase.Respond? then w.message else w.deletion }

  function ReplyOf(w: World, phase: Phase, k: nat): Sending { Replies(w, phase)(k) }

  /** An event carries the reply that was really given; nothing cancels the call. */
  ghost predicate Truthful(w: World, u: seq<Event>, e: Event) {
    match e
    case Answer(_, r) => r == if LastEdit(u, 0) == Some(BadContent) then w.plain else w.reply(Answers(u))
    case Response(_, phase, result) => result == ReplyOf(w, phase, Responses(u, phase.Delete?))
    case Rouse(_) => false
    case Retry(_, _, _) => false
    case Cancel(_) => false
    case _ => true
  }

  ghost predicate Heard(w: World, es: seq<Event>) {
    es == [] || (Heard(w, es[..|es| - 1]) && Truthful(w, es[..|es| - 1], es[|es| - 1]))
  }

  lemma HeardNext(w: World, es: seq<Event>, e: Event)
    requires Heard(w, es) && Truthful(w, es, e)
    ensures Heard(w, es + [e])
    ensures Answers(es + [e]) == Answers(es) + (if e.Answer? then 1 else 0)
    ensures forall d :: Responses(es + [e], d) == Responses(es, d) + if e.Response? && e.phase.Delete? == d then 1 else 0
  {
    assert (es + [e])[..|es|] == es;
  }

  // ------------------------------------------------------------ the trace of a lone call

  predicate One(s: State) { |s.calls| == 1 && TaskFollows(s.calls[0]) }

  /** Until the call is back, the reporter's message is the newest one, and the one being edited. */
  predicate Poised(w: World, s: State) {
    && One(s)
    && (s.calls[0].pc.Returned? ||
        (&& |s.chat| == s.reporter.message + 1 && (w.stands ==> s.chat[s.reporter.message].Some?)
         && (s.calls[0].pc.Editing? || s.calls[0].pc.Plain? ==> s.calls[0].target == s.reporter.message)))
  }

  lemma StepPoised(limits: Limits, w: World, s: State, e: Event)
    requires Poised(w, s) && Enabled(s, e) && e.i == 0 && !e.Rouse? && !e.Retry? && !e.Cancel?
    ensures Poised(w, Apply(limits, s, e))
  {
    if e.Answer? {
      AnswerPoised(limits, w, s, e);
    } else if e.Response? {
      ResponsePoised(limits, w, s, e);
    } else {
      hide OnReply, OnPlainReply, OnResponse, OnRetry, SameShown, Refused, ButtonsOf, Stale;
    }
  }

  lemma DeliveredPoised(w: World, s: State, buttons: Buttons)
    requires Poised(w, s) && !s.calls[0].pc.Returned?
    ensures Poised(w, DeliveredBy(s, 0, buttons))
  {
    hide Recorded, ShownBy, Marked, Cancelling, Posted;
  }

  lemma AnswerPoised(limits: Limits, w: World, s: State, e: Event)
    requires Poised(w, s) && Enabled(s, e) && e.i == 0 && e.Answer?
    ensures Poised(w, Apply(limits, s, e))
  {
    hide DeliveredBy, WaitSeconds, TooLong;
    DeliveredPoised(w, s, s.calls[0].buttons);
    DeliveredPoised(w, s, None);
  }

  lemma ResponsePoised(limits: Limits, w: World, s: State, e: Event)
    requires Poised(w, s) && Enabled(s, e) && e.i == 0 && e.Response?
    ensures Poised(w, Apply(limits, s, e))
  {
    hide AfterRespond, AfterDelete, Exceeds, WaitSeconds;
    SettledPoised(w, s, e.phase, true);
    SettledPoised(w, s, e.phase, false);
  }

  lemma SettledPoised(w: World, s: State, phase: Phase, ok: bool)
    requires Poised(w, s) && s.calls[0].pc.Sending? && s.calls[0].pc.phase == phase
    ensures Poised(w, Settled(s, 0, phase, ok))
  {
    hide Recorded, ShownBy, Marked, Cancelling, Wiped;
  }

  /** Its events are a run, heard as they came, and cheap so far. */
  ghost predicate Trace(limits: Limits, w: World, start: State, es: seq<Event>, s: State) {
    Runs(limits, start, es, s) && Heard(w, es) && AllCheap(limits, s) && One(s) && Poised(w, s)
  }

  ghost method Extend(limits: Limits, w: World, start: State, es: seq<Event>, s: State, e: Event)
    returns (longer: seq<Event>, next: State)
    requires Trace(limits, w, start, es, s) && Enabled(s, e) && e.i == 0 && Truthful(w, es, e)
    ensures Trace(limits, w, start, longer, next) && next == Apply(limits, s, e)
    ensures Answers(longer) == Answers(es) + (if e.Answer? then 1 else 0)
    ensures LastEdit(longer, 0) == if e.Answer? then Some(e.reply) else LastEdit(es, 0)
    ensures forall d :: Responses(longer, d) == Responses(es, d) + if e.Response? && e.phase.Delete? == d then 1 else 0
  {
    hide Cheap, Apply, Runs, Heard, Answers, LastEdit, Responses, TaskFollows, Poised;
    HeardNext(w, es, e);
    OneMoreReply(es, e, 0);
    OneMore(limits, start, es, s, e);
    StepCheap(limits, s, e);
    OthersStay(limits, s, e);
    StepPoised(limits, w, s, e);
    PoisedIsOne(w, Apply(limits, s, e));
    longer, next := es + [e], Apply(limits, s, e);
  }

  lemma PoisedIsOne(w: World, s: State)
    requires Poised(w, s)
    ensures One(s)
  {
  }

  lemma TraceStarts(limits: Limits, w: World, r: Reporter, q: Request)
    ensures Trace(limits, w, Alone(w, r, q), [], Alone(w, r, q))
    ensures Answers([]) == 0 && LastEdit([], 0) == None && Responses([], false) == Responses([], true) == 0
  {
  }

  lemma TraceGives(limits: Limits, w: World, start: State, es: seq<Event>, s: State)
    requires Trace(limits, w, start, es, s)
    ensures Runs(limits, start, es, s) && Heard(w, es) && |s.calls| == 1 && InBudget(limits, s.calls[0])
  {
    assert Cheap(limits, s.calls[0]);
  }

  // ------------------------------------------------------------ its single steps

  lemma EnterAlone(limits: Limits, s: State, q: Request)
    requires One(s) && s.calls[0] == NewCall(q)
    ensures var t := Apply(limits, s, Event.Enter(0));
            && t.reporter == Entered(s.reporter, q) && t.holder == s.holder
            && t.calls == [Start(s.reporter, NewCall(q))]
  {
    hide Start, Entered;
  }

  lemma LockAlone(limits: Limits, s: State)
    requires One(s) && s.calls[0].pc.Waiting? && s.holder.None?
    requires !Stale(s.reporter, s.calls[0].req.terminal, s.calls[0].number)
    ensures var t := Apply(limits, s, Lock(0));
            && t.reporter == s.reporter && t.holder == Some(0)
            && t.calls == [s.calls[0].(pc := Editing, edits := s.calls[0].edits + 1, target := s.reporter.message)]
  {
  }

  /** The reporter after the text of call `c` got through. */
  function Told(r: Reporter, c: Call, buttons: Buttons): Reporter {
    var u := Recorded(r, c.number, c.req.text, buttons);
    if c.req.terminal then Marked(u, 0) else u
  }

  /** Where a reply leaves the only call, `c`, and the reporter, `r` before it. */
  predicate Leads(limits: Limits, r: Reporter, c: Call, reply: Reply, t: State) {
    && |t.calls| == 1 && (t.holder == if reply.BadContent? then Some(0) else None)
    && match reply
       case Applied =>
         t.calls[0] == c.(pc := Returned(Delivered)) && t.reporter == Told(r, c, c.buttons)
       case NotModified =>
         t.calls[0] == c.(pc := Returned(Delivered)) && t.reporter == Told(r, c, c.buttons)
       case Flood(seconds) => t.calls[0] == OnFlood(limits, c, WaitSeconds(seconds)) && t.reporter == r
       case BadContent => t.calls[0] == c.(pc := Plain, edits := c.edits + 1, target := r.message) && t.reporter == r
       case NotEditable => t.calls[0] == GivenUp(c) && t.reporter == r.(uneditable := true)
       case Transient => t.calls[0] == GivenUp(c) && t.reporter == r
  }

  lemma AnswerAlone(limits: Limits, s: State, reply: Reply)
    requires One(s) && s.calls[0].pc.Editing? && s.holder == Some(0) && Enabled(s, Answer(0, reply))
    ensures Leads(limits, s.reporter, s.calls[0], reply, Apply(limits, s, Answer(0, reply)))
  {
    hide OnFlood, GivenUp, Recorded, Marked, ShownBy, WaitSeconds, Cancelling, Posted;
  }

  lemma PlainAlone(limits: Limits, s: State, reply: Reply)
    requires One(s) && s.calls[0].pc.Plain? && s.holder == Some(0) && Enabled(s, Answer(0, reply))
    ensures var t := Apply(limits, s, Answer(0, reply));
            var c := s.calls[0];
            && |t.calls| == 1 && t.holder.None?
            && if reply.Applied? || reply.NotModified? then
                 t.calls[0] == c.(pc := Returned(Delivered)) && t.reporter == Told(s.reporter, c, None)
               else t.calls[0] == GivenUp(c) && t.reporter == s.reporter
  {
    hide GivenUp, Recorded, Marked, ShownBy, Cancelling, Posted;
  }

  lemma WakeAlone(limits: Limits, s: State)
    requires One(s) && s.calls[0].pc.Sleeping?
    requires !Stale(s.reporter, s.calls[0].req.terminal, s.calls[0].number)
    ensures var t := Apply(limits, s, Wake(0));
            t.reporter == s.reporter && t.holder == s.holder && t.calls == [s.calls[0].(pc := Waiting)]
  {
  }

  lemma FallbackAlone(limits: Limits, s: State)
    requires One(s) && s.calls[0].pc.Undelivered? && s.holder.None?
    ensures var t := Apply(limits, s, FallbackLock(0));
            t.reporter == s.reporter && t.holder == Some(0) && t.calls == [Requesting(s.calls[0], Respond, 0).(target := s.reporter.message)]
  {
  }

  /** Where the only call goes when a phase of its fallback is over. */
  predicate Finished(phase: Phase, ok: bool, r: Reporter, c: Call, t: State) {
    && |t.calls| == 1 && t.calls[0].req == c.req && t.calls[0].number == c.number && t.calls[0].buttons == c.buttons
    && t.calls[0].edits == c.edits
    && if phase.Respond? then
         && t.calls[0].pc == Sending(Delete(ok), 0) && t.holder == Some(0)
         && t.reporter == if ok then Told(r, c, c.buttons).(message := r.message + 1) else r
       else
         && t.calls[0].pc == Returned(if phase.shown then Delivered else Lost) && t.holder.None?
         && t.reporter == if LeavesRetry(c.req, phase.shown, ok) then r.(deferred := Some(0)) else r
  }

  /** A lost text leaves a background retry, unless it was no failure and the old message is gone. */
  predicate LeavesRetry(q: Request, shown: bool, deleted: bool) { !shown && (!deleted || q.isFailure) }

  lemma ResponseAlone(limits: Limits, s: State, phase: Phase, floods: nat, result: Sending)
    requires One(s) && s.calls[0].pc == Sending(phase, floods) && s.holder == Some(0) && |s.chat| == s.reporter.message + 1
    ensures var t := Apply(limits, s, Response(0, phase, result));
            if result.Flooded? && !Exceeds(limits, floods + 1, WaitSeconds(result.seconds)) then
              && t.reporter == s.reporter && t.holder == Some(0)
              && t.calls == [Paused(s.calls[0], WaitSeconds(result.seconds)).(pc := Pausing(phase, floods + 1))]
            else Finished(phase, result.Sent?, s.reporter, s.calls[0], t)
  {
    hide Recorded, Marked, ShownBy, Exceeds, WaitSeconds, Cancelling, Posted, Wiped;
  }

  lemma ResumeAlone(limits: Limits, s: State, phase: Phase, floods: nat)
    requires One(s) && s.calls[0].pc == Pausing(phase, floods) && s.holder == Some(0)
    ensures var t := Apply(limits, s, Wake(0));
            t.reporter == s.reporter && t.holder == Some(0) && t.calls == [Requesting(s.calls[0], phase, floods)]
  {
  }

  /** The lock and the edit of one round. */
  ghost method EditOnce(limits: Limits, w: World, start: State, es: seq<Event>, s: State, edits: nat)
    returns (longer: seq<Event>, next: State)
    requires Trace(limits, w, start, es, s) && One(s) && s.holder.None? && s.calls[0].pc.Waiting? && Possible(w)
    requires !Stale(s.reporter, s.calls[0].req.terminal, s.calls[0].number)
    requires Answers(es) == edits && LastEdit(es, 0) != Some(BadContent)
    ensures Trace(limits, w, start, longer, next)
    ensures Answers(longer) == edits + 1 && LastEdit(longer, 0) == Some(w.reply(edits))
    ensures forall d :: Responses(longer, d) == Responses(es, d)
    ensures Leads(limits, s.reporter, s.calls[0].(pc := Editing, edits := s.calls[0].edits + 1, target := s.reporter.message),
                  w.reply(edits), next)
  {
    hide Trace, Apply, Answers, LastEdit, Responses, Leads, Stale;
    LockAlone(limits, s);
    longer, next := Extend(limits, w, start, es, s, Lock(0));
    TraceIsOne(limits, w, start, longer, next);
    AnswerAlone(limits, next, w.reply(edits));
    longer, next := Extend(limits, w, start, longer, next, Answer(0, w.reply(edits)));
  }

  ghost method CallBegins(limits: Limits, w: World, r: Reporter, q: Request) returns (es: seq<Event>, s: State)
    ensures Trace(limits, w, Alone(w, r, q), es, s) && One(s)
    ensures Answers(es) == 0 && LastEdit(es, 0) == None && Responses(es, false) == Responses(es, true) == 0
    ensures s.reporter == Entered(r, q) && s.holder.None? && s.calls == [Start(r, NewCall(q))]
  {
    hide Trace, Apply, Answers, LastEdit, Responses, Start, Entered;
    var start := Alone(w, r, q);
    TraceStarts(limits, w, r, q);
    EnterAlone(limits, start, q);
    es, s := Extend(limits, w, start, [], start, Event.Enter(0));
    TraceIsOne(limits, w, start, es, s);
  }

  ghost method FallbackBegins(limits: Limits, w: World, start: State, es: seq<Event>, s: State)
    returns (longer: seq<Event>, next: State)
    requires Trace(limits, w, start, es, s) && One(s) && s.holder.None? && s.calls[0].pc == Undelivered
    ensures Trace(limits, w, start, longer, next) && One(next) && next.holder == Some(0) && next.reporter == s.reporter
    ensures next.calls == [Requesting(s.calls[0], Respond, 0).(target := s.reporter.message)]
    ensures forall d :: Responses(longer, d) == Responses(es, d)
  {
    hide Trace, Apply, Answers, LastEdit, Responses;
    FallbackAlone(limits, s);
    longer, next := Extend(limits, w, start, es, s, FallbackLock(0));
    TraceIsOne(limits, w, start, longer, next);
  }

  /** How one round of the edit loop ends. */
  datatype Verdict = Again | Dropped | Done

  predicate AtTop(s: State, q: Request, mine: nat, buttons: Buttons, attempts: nat, edits: nat) {
    && One(s) && s.holder.None?
    && var c := s.calls[0];
       c.req == q && c.number == mine && c.buttons == buttons && c.pc == Waiting && c.attempts == attempts && c.edits == edits
  }

  // ------------------------------------------------------------ what the replies lead to

  /** A flood wait that is slept out, for at least a second. */
  predicate ShortEnough(seconds: nat, longest: nat) { Max(seconds, 1) <= longest }

  /** The first `k` edits come back with flood waits that are slept out: as many as `max_retries`
      and as long as `max_wait_seconds` for a terminal text, one of up to two seconds for a status. */
  ghost predicate SleptOut(limits: Limits, w: World, terminal: bool, k: nat) {
    && k <= (if terminal then limits.maxRetries else Min(limits.maxRetries, 1))
    && forall j: nat :: j < k ==>
         w.reply(j).Flood? && ShortEnough(w.reply(j).seconds, if terminal then limits.maxWait else Min(limits.maxWait, 2))
  }

  /** Edit `k` is the first one that is not slept out and sent again. */
  ghost predicate LastsUntil(limits: Limits, w: World, terminal: bool, k: nat) {
    SleptOut(limits, w, terminal, k) && !SleptOut(limits, w, terminal, k + 1)
  }

  /** Edit `k`, or the plain one that follows bad content, gets through. */
  predicate EditWorks(w: World, k: nat) {
    || w.reply(k).Applied? || w.reply(k).NotModified?
    || (w.reply(k).BadContent? && (w.plain.Applied? || w.plain.NotModified?))
  }

  /** A fallback request that floods at most `max_retries` times, never too long, and is then sent. */
  ghost predicate GetsThrough(limits: Limits, replies: nat -> Sending) {
    exists m: nat :: SentAt(limits, replies, m)
  }

  ghost predicate SentAt(limits: Limits, replies: nat -> Sending, m: nat) {
    m <= limits.maxRetries && replies(m).Sent?
    && forall j: nat :: j < m ==> replies(j).Flooded? && ShortEnough(replies(j).seconds, limits.maxWait)
  }

  /** There is exactly one such edit. */
  lemma {:induction false} SomeEditIsLast(limits: Limits, w: World, terminal: bool, n: nat) returns (k: nat)
    requires SleptOut(limits, w, terminal, n)
    ensures LastsUntil(limits, w, terminal, k)
    ensures forall m: nat :: LastsUntil(limits, w, terminal, m) ==> m == k
    decreases limits.maxRetries + 1 - n
  {
    if SleptOut(limits, w, terminal, n + 1) {
      k := SomeEditIsLast(limits, w, terminal, n + 1);
    } else {
      k := n;
      forall m: nat | LastsUntil(limits, w, terminal, m) ensures m == k {
        OneEditIsLast(limits, w, terminal, m, k);
      }
    }
  }

  lemma OneEditIsLast(limits: Limits, w: World, terminal: bool, m: nat, k: nat)
    requires LastsUntil(limits, w, terminal, m) && LastsUntil(limits, w, terminal, k)
    ensures m == k
  {
  }

  lemma SleptNext(limits: Limits, w: World, terminal: bool, k: nat)
    requires SleptOut(limits, w, terminal, k)
    ensures SleptOut(limits, w, terminal, k + 1) <==>
              && w.reply(k).Flood? && k + 1 <= (if terminal then limits.maxRetries else Min(limits.maxRetries, 1))
              && ShortEnough(w.reply(k).seconds, if terminal then limits.maxWait else Min(limits.maxWait, 2))
  {
  }

  lemma WhereItEnds(limits: Limits, w: World, terminal: bool, k: nat)
    requires SleptOut(limits, w, terminal, k) && !SleptOut(limits, w, terminal, k + 1)
    ensures LastsUntil(limits, w, terminal, k)
  {
  }

  lemma WaitIsShort(seconds: nat, longest: nat)
    ensures ShortEnough(seconds, longest) <==> WaitSeconds(seconds) <= longest
  {
  }

  lemma NotSent(limits: Limits, replies: nat -> Sending, m: nat)
    requires !replies(m).Sent? && forall j: nat :: j < m ==> replies(j).Flooded?
    requires replies(m).Flooded? ==> m >= limits.maxRetries || !ShortEnough(replies(m).seconds, limits.maxWait)
    ensures !GetsThrough(limits, replies)
  {
    hide ShortEnough;
  }

  // ------------------------------------------------------------ the object

  class MessageProgressReporter {
    var number: nat
    var lastApplied: nat
    var completed: bool
    var delivered: bool
    var uneditable: bool
    var lastText: Option<string>
    var lastButtons: Buttons
    var message: nat
    var deferred: bool

    function View(): Reporter reads this {
      Reporter(number, lastApplied, completed, delivered, uneditable, lastText, lastButtons, message,
               if deferred then Some(EARLIER) else None)
    }

    predicate Valid() reads this { lastApplied <= number }

    constructor (editable: bool)
      ensures Valid() && View() == Init([], editable).reporter
    {
      number, lastApplied, completed, delivered, uneditable := 0, 0, false, false, !editable;
      lastText, lastButtons, message, deferred := None, None, 0, false;
    }

    /** Everything `update` does before its loop: no await, so one step. */
    method Enter(q: Request) returns (early: Option<Outcome>, mine: nat, buttons: Buttons)
      modifies this
      ensures View() == Entered(old(View()), q) && mine == number && buttons == ButtonsOf(q)
      ensures early == (if Refused(old(View()), q) then Some(Discarded)
                        else if SameShown(old(View()), q) then Some(Same) else None)
      ensures early == Some(Discarded) <==> !q.terminal && (old(completed) || old(uneditable))
      ensures early == Some(Same) <==>
                && (q.terminal || !(old(completed) || old(uneditable)))
                && old(lastText) == Some(q.text) && (buttons == old(lastButtons) || (!q.terminal && q.buttons.None?))
      ensures buttons == if q.terminal && q.buttons.None? then q.failureButtons else q.buttons
      ensures number == old(number) + 1 && completed == (old(completed) || q.terminal)
      ensures unchanged(`lastApplied, `delivered, `uneditable, `lastText, `lastButtons, `message, `deferred)
    {
      number := number + 1;
      mine, buttons := number, ButtonsOf(q);
      if !q.terminal && completed {
        return Some(Discarded), mine, buttons;
      }
      if !q.terminal && uneditable {
        return Some(Discarded), mine, buttons;
      }
      if q.terminal {
        completed := true;
      }
      if !q.terminal && Some(q.text) == lastText && q.buttons.None? {
        return Some(Same), mine, buttons;
      }
      if Some(q.text) == lastText && buttons == lastButtons {
        return Some(Same), mine, buttons;
      }
      early := None;
    }

    /** A terminal text got through: the retry the reporter has a handle of is cancelled. */
    method MarkTerminalDelivered()
      modifies `completed, `delivered, `deferred
      ensures View() == Marked(old(View()), 0)
    {
      completed, delivered, deferred := true, true, false;
    }

    /** The text of the call got through. */
    method Record(q: Request, mine: nat, buttons: Buttons)
      modifies this
      ensures View() == if q.terminal then Marked(Recorded(old(View()), mine, q.text, buttons), 0)
                        else Recorded(old(View()), mine, q.text, buttons)
      ensures unchanged(`number, `message) && lastApplied == mine && (old(completed) ==> completed)
      ensures lastText == Some(q.text) && lastButtons == buttons && !uneditable
      ensures q.terminal ==> completed && delivered && !deferred
    {
      lastText, lastButtons, lastApplied, uneditable := Some(q.text), buttons, mine, false;
      if q.terminal {
        MarkTerminalDelivered();
      }
    }

    method MarkUneditable()
      modifies `uneditable
      ensures View() == old(View()).(uneditable := true)
    {
      uneditable := true;
    }

    /** What is on record, and where. */
    function Fields(): (Option<string>, Buttons, nat, nat, bool, bool) reads this {
      (lastText, lastButtons, lastApplied, message, delivered, deferred)
    }

    /** A flood wait of the edit loop, slept out or not. */
    method AfterFlood(limits: Limits, w: World, q: Request, attempted: nat, seconds: nat, ghost c: Call, ghost r: Reporter,
                      ghost start: State, ghost es: seq<Event>, ghost s: State)
      returns (again: bool, ghost longer: seq<Event>, ghost next: State)
      requires Trace(limits, w, start, es, s) && One(s) && Leads(limits, r, c, Flood(seconds), s)
      requires c.req == q && attempted == c.attempts + 1 && !Stale(r, q.terminal, c.number)
      ensures Trace(limits, w, start, longer, next)
      ensures Answers(longer) == Answers(es) && LastEdit(longer, 0) == LastEdit(es, 0)
      ensures (forall d :: Responses(longer, d) == Responses(es, d))
      ensures One(next) && next.holder.None? && next.reporter == r
      ensures again <==>
                && attempted <= (if q.terminal then limits.maxRetries else Min(limits.maxRetries, 1))
                && ShortEnough(seconds, if q.terminal then limits.maxWait else Min(limits.maxWait, 2))
      ensures var d := next.calls[0];
              && d.req == q && d.number == c.number && d.buttons == c.buttons && d.edits == c.edits
              && d.attempts == attempted
              && d.pc == if again then Waiting else if q.terminal then Undelivered else Returned(Skipped)
    {
      hide Trace, Apply, Answers, LastEdit, Responses, WaitSeconds, ShortEnough;
      longer, next := es, s;
      var wait := WaitSeconds(seconds);
      WaitIsShort(seconds, limits.maxWait);
      WaitIsShort(seconds, Min(limits.maxWait, 2));
      if !q.terminal && (attempted > 1 || wait > NONTERMINAL_MAX_WAIT) {
        return false, longer, next;
      }
      if attempted > limits.maxRetries || wait > limits.maxWait {
        return false, longer, next;
      }
      WakeAlone(limits, next);
      longer, next := Extend(limits, w, start, longer, next, Wake(0));
      TraceIsOne(limits, w, start, longer, next);
      again := true;
    }

    /** The plain-text retry after bad content, under the same lock. */
    method PlainOnce(limits: Limits, w: World, q: Request, mine: nat,
                     ghost start: State, ghost es: seq<Event>, ghost s: State)
      returns (done: bool, ghost longer: seq<Event>, ghost next: State)
      requires Trace(limits, w, start, es, s) && s.reporter == View() && One(s) && s.calls[0].pc.Plain? && s.holder == Some(0)
      requires LastEdit(es, 0) == Some(BadContent) && s.calls[0].req == q && s.calls[0].number == mine
      requires Valid() && mine == number && Possible(w)
      modifies this
      ensures Trace(limits, w, start, longer, next) && next.reporter == View() && Valid()
      ensures (forall d :: Responses(longer, d) == Responses(es, d)) && One(next) && next.holder.None?
      ensures next.calls[0] == if done then s.calls[0].(pc := Returned(Delivered)) else GivenUp(s.calls[0])
      ensures done <==> w.plain.Applied? || w.plain.NotModified?
      ensures !done ==> unchanged(this)
      ensures done ==> lastText == Some(q.text) && lastApplied == mine && !uneditable && lastButtons == None
                       && (q.terminal ==> delivered && !deferred)
      ensures (old(completed) ==> completed) && number == old(number) && message == old(message)
    {
      hide Trace, Apply, Answers, LastEdit, Responses, Recorded, Marked, GivenUp;
      TraceIsOne(limits, w, start, es, s);
      PlainAlone(limits, s, w.plain);
      longer, next := Extend(limits, w, start, es, s, Answer(0, w.plain));
      TraceIsOne(limits, w, start, longer, next);
      done := w.plain.Applied? || w.plain.NotModified?;
      if done {
        Record(q, mine, None);
      }
    }

    /** Any other reply to an edit. */
    method AfterAnswer(limits: Limits, w: World, q: Request, mine: nat, buttons: Buttons, answer: Reply, edits: nat, ghost c: Call,
                       ghost start: State, ghost es: seq<Event>, ghost s: State)
      returns (done: bool, edited: nat, ghost longer: seq<Event>, ghost next: State)
      requires Trace(limits, w, start, es, s) && One(s) && Leads(limits, View(), c, answer, s) && !answer.Flood?
      requires c.req == q && c.number == mine && c.buttons == buttons && c.edits == edits + 1
      requires LastEdit(es, 0) == Some(answer) && Valid() && mine == number && Possible(w)
      modifies this
      ensures Trace(limits, w, start, longer, next) && next.reporter == View() && Valid()
      ensures forall d :: Responses(longer, d) == Responses(es, d)
      ensures One(next) && next.holder.None?
      ensures var d := next.calls[0]; d.req == q && d.number == mine && d.buttons == buttons && d.edits == edited
      ensures next.calls[0].pc == if done then Returned(Delivered) else if q.terminal then Undelivered else Returned(Skipped)
      ensures edited == edits + 1 + if answer.BadContent? then 1 else 0
      ensures done <==> answer.Applied? || answer.NotModified?
                        || (answer.BadContent? && (w.plain.Applied? || w.plain.NotModified?))
      ensures done ==> lastText == Some(q.text) && lastApplied == mine && !uneditable
                       && lastButtons == (if answer.BadContent? then None else buttons)
                       && (q.terminal ==> delivered && !deferred)
      ensures !done ==> Fields() == old(Fields()) && uneditable == (old(uneditable) || answer.NotEditable?)
      ensures (old(completed) ==> completed) && number == old(number) && message == old(message)
    {
      hide Trace, Apply, Answers, LastEdit, Responses, Recorded, Marked;
      longer, next, edited, done := es, s, edits + 1, false;
      match answer {
        case Applied | NotModified =>
          Record(q, mine, buttons);
          done := true;
        case BadContent =>
          edited := edited + 1;
          done, longer, next := PlainOnce(limits, w, q, mine, start, longer, next);
        case NotEditable =>
          MarkUneditable();
        case Transient =>
      }
    }

    /** One round of the retry loop of a lone call: lock, edit, and what its reply leads to. */
    method Round(limits: Limits, w: World, q: Request, mine: nat, buttons: Buttons, attempts: nat, edits: nat,
                 ghost start: State, ghost es: seq<Event>, ghost s: State)
      returns (verdict: Verdict, attempted: nat, edited: nat, ghost longer: seq<Event>, ghost next: State)
      requires Trace(limits, w, start, es, s) && s.reporter == View()
      requires AtTop(s, q, mine, buttons, attempts, edits) && attempts <= limits.maxRetries
      requires Answers(es) == edits && LastEdit(es, 0) != Some(BadContent)
      requires Responses(es, false) == Responses(es, true) == 0
      requires Valid() && mine == number && !Stale(View(), q.terminal, mine)
      requires Possible(w) && SleptOut(limits, w, q.terminal, attempts) && edits == attempts
      modifies this
      ensures Trace(limits, w, start, longer, next) && next.reporter == View() && Valid()
      ensures Responses(longer, false) == Responses(longer, true) == 0
      ensures One(next) && next.holder.None? && next.calls[0].edits == edited
      ensures next.calls[0].req == q && next.calls[0].number == mine && next.calls[0].buttons == buttons
      ensures match verdict
              case Again => AtTop(next, q, mine, buttons, attempted, edited) && attempted == attempts + 1 <= limits.maxRetries
                            && Answers(longer) == edited && LastEdit(longer, 0) != Some(BadContent)
                            && !Stale(View(), q.terminal, mine) && SleptOut(limits, w, q.terminal, attempted)
                            && edited == attempted && Fields() == old(Fields()) && uneditable == old(uneditable)
              case Dropped => next.calls[0].pc == if q.terminal then Undelivered else Returned(Skipped)
              case Done => next.calls[0].pc == Returned(Delivered) && (q.terminal ==> delivered && !deferred)
                           && lastText == Some(q.text) && lastApplied == mine && !uneditable
                           && lastButtons == if w.reply(attempts).BadContent? then None else buttons
      ensures !verdict.Again? ==>
                && LastsUntil(limits, w, q.terminal, attempts) && (verdict.Done? <==> EditWorks(w, attempts))
                && edited == attempts + 1 + if w.reply(attempts).BadContent? then 1 else 0
      ensures verdict.Dropped? ==> Fields() == old(Fields()) && uneditable == (old(uneditable) || w.reply(attempts).NotEditable?)
      ensures (old(completed) ==> completed) && number == old(number) && message == old(message)
    {
      hide Trace, Apply, Answers, LastEdit, Responses, WaitSeconds, Recorded, Marked, SleptOut, LastsUntil, ShortEnough, Leads;
      SleptNext(limits, w, q.terminal, attempts);
      longer, next := EditOnce(limits, w, start, es, s, edits);
      TraceIsOne(limits, w, start, longer, next);
      ghost var c := s.calls[0].(pc := Editing, edits := s.calls[0].edits + 1, target := s.reporter.message);
      match w.reply(edits) {
        case Flood(seconds) =>
          attempted, edited := attempts + 1, edits + 1;
          var again;
          again, longer, next := AfterFlood(limits, w, q, attempted, seconds, c, s.reporter, start, longer, next);
          verdict := if again then Again else Dropped;
        case answer =>
          attempted := attempts;
          var done;
          done, edited, longer, next := AfterAnswer(limits, w, q, mine, buttons, answer, edits, c, start, longer, next);
          verdict := if done then Done else Dropped;
      }
      if !verdict.Again? {
        WhereItEnds(limits, w, q.terminal, attempts);
      }
    }

    /** `call_with_flood_retry` around one of the fallback requests: whether it got through. */
    method Retry(limits: Limits, w: World, phase: Phase, ghost start: State, ghost es: seq<Event>, ghost s: State)
      returns (ok: bool, ghost longer: seq<Event>, ghost next: State)
      requires Trace(limits, w, start, es, s) && One(s) && s.calls[0].pc == Sending(phase, 0) && s.holder == Some(0)
      requires Responses(es, phase.Delete?) == 0
      ensures Trace(limits, w, start, longer, next) && Finished(phase, ok, s.reporter, s.calls[0], next)
      ensures Responses(longer, !phase.Delete?) == Responses(es, !phase.Delete?)
      ensures ok <==> GetsThrough(limits, Replies(w, phase))
    {
      hide Trace, Apply, Responses, LastEdit, Answers, WaitSeconds, Finished, Recorded;
      longer, next := es, s;
      TraceIsOne(limits, w, start, longer, next);
      ghost var c0 := s.calls[0];
      var floods, replies := 0, Replies(w, phase);
      while true
        invariant floods <= limits.maxRetries
        invariant Trace(limits, w, start, longer, next) && One(next) && next.holder == Some(0) && next.reporter == s.reporter
        invariant next.calls[0].pc == Sending(phase, floods) && SameCall(c0, next.calls[0])
        invariant |next.chat| == next.reporter.message + 1
        invariant forall j: nat :: j < floods ==> replies(j).Flooded? && ShortEnough(replies(j).seconds, limits.maxWait)
        invariant Responses(longer, phase.Delete?) == floods && Responses(longer, !phase.Delete?) == Responses(es, !phase.Delete?)
        decreases limits.maxRetries + 1 - floods
      {
        var result := replies(floods);
        ghost var before := next.calls[0];
        ResponseAlone(limits, next, phase, floods, result);
        longer, next := Extend(limits, w, start, longer, next, Response(0, phase, result));
        TraceIsOne(limits, w, start, longer, next);
        ghost var m := floods;
        if result.Flooded? {
          WaitIsShort(result.seconds, limits.maxWait);
          floods := floods + 1;
          if !(floods > limits.maxRetries || WaitSeconds(result.seconds) > limits.maxWait) {
            ResumeAlone(limits, next, phase, floods);
            longer, next := Extend(limits, w, start, longer, next, Wake(0));
            TraceIsOne(limits, w, start, longer, next);
            continue;
          }
        }
        if result.Sent? {
          assert SentAt(limits, replies, m);
        } else {
          NotSent(limits, replies, m);
        }
        FinishedSame(phase, result.Sent?, s.reporter, c0, before, next);
        return result.Sent?, longer, next;
      }
    }

    /** The retry loop of a lone call: rounds until one is not slept out. */
    method EditLoop(limits: Limits, w: World, q: Request, mine: nat, buttons: Buttons,
                    ghost start: State, ghost es: seq<Event>, ghost s: State)
      returns (done: bool, edits: nat, ghost last: nat, ghost longer: seq<Event>, ghost next: State)
      requires Trace(limits, w, start, es, s) && s.reporter == View() && AtTop(s, q, mine, buttons, 0, 0)
      requires Answers(es) == 0 && LastEdit(es, 0) == None && Responses(es, false) == Responses(es, true) == 0
      requires Valid() && mine == number && !Stale(View(), q.terminal, mine) && Possible(w) && (q.terminal ==> completed)
      modifies this
      ensures Trace(limits, w, start, longer, next) && next.reporter == View() && Valid()
      ensures Responses(longer, false) == Responses(longer, true) == 0
      ensures One(next) && next.holder.None? && next.calls[0].edits == edits
      ensures next.calls[0].req == q && next.calls[0].number == mine && next.calls[0].buttons == buttons
      ensures LastsUntil(limits, w, q.terminal, last) && (done <==> EditWorks(w, last))
      ensures edits == last + 1 + if w.reply(last).BadContent? then 1 else 0
      ensures (q.terminal ==> completed) && number == old(number) && message == old(message)
      ensures done ==> next.calls[0].pc == Returned(Delivered) && (q.terminal ==> delivered && !deferred)
                       && lastText == Some(q.text) && lastApplied == mine && !uneditable
                       && lastButtons == if w.reply(last).BadContent? then None else buttons
      ensures !done ==> next.calls[0].pc == (if q.terminal then Undelivered else Returned(Skipped))
                        && Fields() == old(Fields()) && uneditable == (old(uneditable) || w.reply(last).NotEditable?)
    {
      hide Trace, Apply, Answers, LastEdit, Responses, SleptOut, EditWorks, ShortEnough;
      NoneSleptOut(limits, w, q.terminal);
      ghost var entered, stuck := Fields(), uneditable;
      longer, next := es, s;
      var attempts := 0;
      var verdict := Again;
      edits := 0;
      last := 0;
      while verdict.Again?
        invariant Trace(limits, w, start, longer, next) && next.reporter == View() && next.holder.None? && One(next)
        invariant Valid() && mine == number && next.calls[0].edits == edits && (q.terminal ==> completed)
        invariant next.calls[0].req == q && next.calls[0].number == mine && next.calls[0].buttons == buttons
        invariant Responses(longer, false) == Responses(longer, true) == 0
        invariant verdict.Again? ==> AtTop(next, q, mine, buttons, attempts, edits) && attempts <= limits.maxRetries
        invariant verdict.Again? ==> Answers(longer) == edits && LastEdit(longer, 0) != Some(BadContent) && !Stale(View(), q.terminal, mine)
        invariant verdict.Again? ==> SleptOut(limits, w, q.terminal, attempts) && edits == attempts && uneditable == stuck
        invariant !verdict.Done? ==> Fields() == entered
        invariant verdict.Dropped? ==> next.calls[0].pc == if q.terminal then Undelivered else Returned(Skipped)
        invariant verdict.Done? ==> next.calls[0].pc == Returned(Delivered) && (q.terminal ==> delivered && !deferred)
        invariant !verdict.Again? ==> LastsUntil(limits, w, q.terminal, last) && (verdict.Done? <==> EditWorks(w, last))
                                      && edits == last + 1 + if w.reply(last).BadContent? then 1 else 0
        invariant verdict.Done? ==> lastText == Some(q.text) && lastApplied == mine && !uneditable && message == entered.3
                                    && lastButtons == if w.reply(last).BadContent? then None else buttons
        invariant verdict.Dropped? ==> uneditable == (stuck || w.reply(last).NotEditable?)
        decreases verdict.Again?, limits.maxRetries + 1 - attempts
      {
        last := attempts;
        verdict, attempts, edits, longer, next := Round(limits, w, q, mine, buttons, attempts, edits, start, longer, next);
      }
      done := verdict.Done?;
    }

    /** A whole `update` with no other coroutine in between: it is the run of the step relation
        in which the outside answers as in `w`, and it is in budget. A terminal text that got
        through leaves no handle of an earlier retry, a lost failure leaves its own. */
    method Update(limits: Limits, w: World, q: Request)
      returns (outcome: Outcome, edits: nat, ghost es: seq<Event>, ghost t: State)
      requires Valid() && Possible(w)
      modifies this
      ensures Valid()
      ensures Runs(limits, Alone(w, old(View()), q), es, t) && Heard(w, es) && Kept(t.reporter) == View()
      ensures |t.calls| == 1 && t.calls[0].pc == Returned(outcome)
      ensures t.calls[0].edits == edits && InBudget(limits, t.calls[0])
      ensures q.terminal ==> completed && outcome in {Delivered, Same, Lost}
      ensures q.terminal && outcome.Delivered? ==> delivered && !deferred
      ensures outcome == Discarded <==> !q.terminal && (old(completed) || old(uneditable))
      ensures outcome == Same <==>
                && (q.terminal || !(old(completed) || old(uneditable)))
                && old(lastText) == Some(q.text)
                && ((if q.terminal && q.buttons.None? then q.failureButtons else q.buttons) == old(lastButtons)
                    || (!q.terminal && q.buttons.None?))
      ensures outcome in {Discarded, Same} ==> edits == 0 && Fields() == old(Fields()) && uneditable == old(uneditable)
      ensures outcome !in {Discarded, Same} ==> forall k: nat :: LastsUntil(limits, w, q.terminal, k) ==>
                && edits == k + 1 + (if w.reply(k).BadContent? then 1 else 0)
                && outcome == (if EditWorks(w, k) then Delivered else if !q.terminal then Skipped
                               else if GetsThrough(limits, w.message) then Delivered else Lost)
                && (EditWorks(w, k) ==>
                      && Responses(es, false) == Responses(es, true) == 0 && message == old(message)
                      && lastButtons == if w.reply(k).BadContent? then None
                                        else if q.terminal && q.buttons.None? then q.failureButtons else q.buttons)
                && (!EditWorks(w, k) && outcome.Delivered? ==> message == old(message) + 1)
                && (outcome.Skipped? ==> Fields() == old(Fields()) && uneditable == (old(uneditable) || w.reply(k).NotEditable?))
      ensures outcome.Delivered? ==> lastText == Some(q.text) && lastApplied == number && !uneditable
      ensures outcome.Lost? ==> unchanged(`lastText, `lastButtons, `lastApplied, `message, `delivered)
      ensures outcome.Lost? ==> deferred == (old(deferred) || q.isFailure || !GetsThrough(limits, w.deletion))
      ensures number == old(number) + 1
    {
      hide SleptOut, EditWorks, GetsThrough, LastsUntil, Refused, SameShown, Entered;
      hide Trace, Runs, Apply, Heard, Answers, LastEdit, Responses;
      ghost var start := Alone(w, View(), q);
      ghost var s;
      es, s := CallBegins(limits, w, View(), q);
      var early, mine, buttons := Enter(q);
      if early.Some? {
        TraceGives(limits, w, start, es, s);
        return early.value, 0, es, s;
      }
      var done;
      ghost var k;
      done, edits, k, es, s := EditLoop(limits, w, q, mine, buttons, start, es, s);
      if !done && q.terminal {
        outcome, es, s := Fallback(limits, w, q, mine, buttons, start, es, s);
      } else {
        outcome := if done then Delivered else Skipped;
      }
      TraceGives(limits, w, start, es, s);
      t := s;
      forall m: nat | LastsUntil(limits, w, q.terminal, m) ensures m == k {
        OneEditIsLast(limits, w, q.terminal, m, k);
      }
    }

    /** The end of `update` for a terminal text that could not be edited in: a new message,
        then the deletion of the old one. */
    method Fallback(limits: Limits, w: World, q: Request, mine: nat, buttons: Buttons,
                    ghost start: State, ghost es: seq<Event>, ghost s: State)
      returns (outcome: Outcome, ghost longer: seq<Event>, ghost next: State)
      requires Trace(limits, w, start, es, s) && s.reporter == View() && s.holder.None? && One(s) && Valid() && mine == number
      requires s.calls[0].pc == Undelivered && s.calls[0].req == q && s.calls[0].number == mine && s.calls[0].buttons == buttons
      requires Responses(es, false) == Responses(es, true) == 0
      requires q.terminal && completed
      modifies this
      ensures Trace(limits, w, start, longer, next) && Kept(next.reporter) == View() && Valid() && completed
      ensures |next.calls| == 1 && next.calls[0].pc == Returned(outcome) && next.calls[0].edits == s.calls[0].edits
      ensures outcome == (if GetsThrough(limits, w.message) then Delivered else Lost) && number == old(number)
      ensures outcome.Delivered? ==> delivered && !deferred && lastText == Some(q.text) && lastApplied == mine && !uneditable
      ensures outcome.Delivered? ==> message == old(message) + 1
      ensures outcome.Lost? ==> unchanged(`lastText, `lastButtons, `lastApplied, `message, `delivered)
      ensures outcome.Lost? ==> deferred == (old(deferred) || q.isFailure || !GetsThrough(limits, w.deletion))
    {
      hide Trace, Apply, Responses, LastEdit, Answers, Recorded, Marked, GetsThrough, Kept;
      longer, next := FallbackBegins(limits, w, start, es, s);
      var sent;
      sent, longer, next := Retry(limits, w, Respond, start, longer, next);
      TraceIsOne(limits, w, start, longer, next);
      if sent {
        Record(q, mine, buttons);
        message := message + 1;
      }
      longer, next := DeleteOld(limits, w, q, sent, start, longer, next);
      outcome := if sent then Delivered else Lost;
    }

    /** The deletion of the old message, and the retry a lost text may leave. */
    method DeleteOld(limits: Limits, w: World, q: Request, sent: bool, ghost start: State, ghost es: seq<Event>, ghost s: State)
      returns (ghost longer: seq<Event>, ghost next: State)
      requires Trace(limits, w, start, es, s) && s.reporter == View() && One(s) && s.holder == Some(0)
      requires s.calls[0].pc == Sending(Delete(sent), 0) && s.calls[0].req == q && Responses(es, true) == 0
      modifies `deferred
      ensures Trace(limits, w, start, longer, next) && Kept(next.reporter) == View()
      ensures |next.calls| == 1 && next.calls[0].edits == s.calls[0].edits
      ensures next.calls[0].pc == Returned(if sent then Delivered else Lost)
      ensures deferred == (old(deferred) || (!sent && (q.isFailure || !GetsThrough(limits, w.deletion))))
    {
      hide Trace, Apply, Responses, LastEdit, Answers, GetsThrough;
      var deleted;
      deleted, longer, next := Retry(limits, w, Delete(sent), start, es, s);
      if !sent && (!deleted || q.isFailure) {
        deferred := true;
      }
    }
  }

  /** What a phase of the fallback leaves of a call. */
  predicate SameCall(c: Call, d: Call) {
    d.req == c.req && d.number == c.number && d.buttons == c.buttons && d.edits == c.edits
  }

  lemma FinishedSame(phase: Phase, ok: bool, r: Reporter, c: Call, d: Call, t: State)
    requires SameCall(c, d) && Finished(phase, ok, r, d, t)
    ensures Finished(phase, ok, r, c, t)
  {
  }

  lemma NoneSleptOut(limits: Limits, w: World, terminal: bool)
    ensures SleptOut(limits, w, terminal, 0)
  {
  }

  lemma TraceIsOne(limits: Limits, w: World, start: State, es: seq<Event>, s: State)
    requires Trace(limits, w, start, es, s)
    ensures One(s) && (!s.calls[0].pc.Returned? ==> |s.chat| == s.reporter.message + 1)
    ensures s.calls[0].pc.Editing? || s.calls[0].pc.Plain? ==> (w.stands ==> Stands(s, s.calls[0].target))
  {
  }
}

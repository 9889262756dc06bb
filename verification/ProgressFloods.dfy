/** What a reply means for an `update` (telegram/progress.py), in every interleaving and in terms of
    the replies alone: which flood waits are slept out, and when a status text is dropped. */
module ProgressFloods {
  import opened Common
  import opened Progress
  import opened ProgressEnds

  // ------------------------------------------------------------ replies heard so far

  /** Flood waits call `i` was asked for when it edited. */
  ghost function EditFloods(es: seq<Event>, i: nat): nat {
    if es == [] then 0
    else
      var e := es[|es| - 1];
      EditFloods(es[..|es| - 1], i) + if e.Answer? && e.i == i && e.reply.Flood? then 1 else 0
  }

  /** Flood waits it was asked for when it sent a new message, or deleted the old one. */
  ghost function RequestFloods(es: seq<Event>, i: nat, deletion: bool): nat {
    if es == [] then 0
    else
      var e := es[|es| - 1];
      RequestFloods(es[..|es| - 1], i, deletion)
      + if e.Response? && e.i == i && e.phase.Delete? == deletion && e.result.Flooded? then 1 else 0
  }

  /** The message was found to be uneditable, and no text got through since. */
  ghost predicate Stuck(editable: bool, es: seq<Event>) {
    if es == [] then !editable
    else
      var u, e := es[..|es| - 1], es[|es| - 1];
      if e.Answer? && Through(Some(e.reply)) then false
      else if e.Response? && e.phase.Respond? && e.result.Sent? then false
      else Stuck(editable, u) || (e.Answer? && e.reply.NotEditable? && LastEdit(u, e.i) != Some(BadContent))
  }

  /** Some terminal update has begun. */
  ghost predicate TerminalBegan(s: State) { exists j :: 0 <= j < |s.calls| && s.calls[j].req.terminal && !s.calls[j].pc.Ready? }

  /** How far a call is, in terms of what it heard. */
  predicate Counts(c: Call, edits: nat, messages: nat, deletions: nat, last: Option<Reply>) {
    match c.pc
    case Ready => edits == c.attempts == messages == deletions == 0 && last.None?
    case Waiting => c.attempts == edits && messages == deletions == 0 && last != Some(BadContent)
    case Sleeping => c.attempts == edits && messages == deletions == 0 && last != Some(BadContent)
    case Editing => c.attempts == edits && messages == deletions == 0 && last != Some(BadContent)
    case Plain => c.attempts == edits && messages == deletions == 0 && last == Some(BadContent)
    case Undelivered => messages == deletions == 0
    case Sending(phase, floods) => floods == (if phase.Respond? then messages else deletions) && (phase.Respond? ==> deletions == 0)
    case Pausing(phase, floods) => floods == (if phase.Respond? then messages else deletions) && (phase.Respond? ==> deletions == 0)
    case Returned(_) => true
  }

  ghost predicate CountsAt(es: seq<Event>, s: State, i: nat) {
    i < |s.calls| && Counts(s.calls[i], EditFloods(es, i), RequestFloods(es, i, false), RequestFloods(es, i, true), LastEdit(es, i))
  }

  ghost predicate Counted(es: seq<Event>, s: State) { forall i: nat :: i < |s.calls| ==> CountsAt(es, s, i) }

  lemma CountsNext(es: seq<Event>, e: Event, i: nat)
    ensures EditFloods(es + [e], i) == EditFloods(es, i) + if e.Answer? && e.i == i && e.reply.Flood? then 1 else 0
    ensures forall d :: RequestFloods(es + [e], i, d) ==
              RequestFloods(es, i, d) + if e.Response? && e.i == i && e.phase.Delete? == d && e.result.Flooded? then 1 else 0
    ensures LastEdit(es + [e], i) == if e.Answer? && e.i == i then Some(e.reply) else LastEdit(es, i)
  {
    assert (es + [e])[..|es|] == es;
  }

  lemma AnswerCounts(limits: Limits, s: State, e: Event, edits: nat, messages: nat, deletions: nat, last: Option<Reply>)
    requires Enabled(s, e) && e.Answer? && Counts(s.calls[e.i], edits, messages, deletions, last)
    ensures Counts(Apply(limits, s, e).calls[e.i], edits + (if e.reply.Flood? then 1 else 0), messages, deletions, Some(e.reply))
  {
    hide DeliveredBy, TooLong, WaitSeconds;
    DeliveredCall(s, e.i, s.calls[e.i].buttons);
    DeliveredCall(s, e.i, None);
  }

  lemma ResponseCounts(limits: Limits, s: State, e: Event, edits: nat, messages: nat, deletions: nat, last: Option<Reply>)
    requires Enabled(s, e) && e.Response? && Counts(s.calls[e.i], edits, messages, deletions, last)
    ensures var more := if e.result.Flooded? then 1 else 0;
            Counts(Apply(limits, s, e).calls[e.i], edits, messages + (if e.phase.Respond? then more else 0),
                   deletions + (if e.phase.Delete? then more else 0), last)
  {
    hide Recorded, ShownBy, Exceeds, WaitSeconds, Cancelling, Posted, Wiped, Marked;
  }

  lemma OtherCounts(limits: Limits, s: State, e: Event, edits: nat, messages: nat, deletions: nat, last: Option<Reply>)
    requires Enabled(s, e) && !e.Answer? && !e.Response? && TaskFollows(s.calls[e.i])
    requires Counts(s.calls[e.i], edits, messages, deletions, last)
    ensures Counts(Apply(limits, s, e).calls[e.i], edits, messages, deletions, last)
  {
    hide SameShown, Refused, ButtonsOf, Entered, Stale, OnReply, OnPlainReply, OnResponse, OnRetry;
    if e.Retry? {
      RetryOnly(s, e.i, e.route, e.ok);
    }
  }

  lemma StepCounted(limits: Limits, s: State, es: seq<Event>, e: Event)
    requires Enabled(s, e) && TasksFollow(s) && Counted(es, s)
    ensures Counted(es + [e], Apply(limits, s, e))
  {
    hide Apply, Counts, EditFloods, RequestFloods, LastEdit;
    OthersStay(limits, s, e);
    var t, j := Apply(limits, s, e), e.i;
    assert CountsAt(es, s, j) && TaskFollows(s.calls[j]);
    forall i: nat | i < |t.calls| ensures CountsAt(es + [e], t, i) {
      CountsNext(es, e, i);
      assert CountsAt(es, s, i);
      if i == j {
        var edits, messages, deletions := EditFloods(es, j), RequestFloods(es, j, false), RequestFloods(es, j, true);
        match e
        case Answer(_, _) => AnswerCounts(limits, s, e, edits, messages, deletions, LastEdit(es, j));
        case Response(_, _, _) => ResponseCounts(limits, s, e, edits, messages, deletions, LastEdit(es, j));
        case _ => OtherCounts(limits, s, e, edits, messages, deletions, LastEdit(es, j));
      }
    }
  }

  lemma {:induction false} RunCounted(limits: Limits, requests: seq<Request>, editable: bool, es: seq<Event>, t: State)
    requires Runs(limits, Init(requests, editable), es, t)
    ensures Counted(es, t)
    decreases |es|
  {
    hide Apply, Counted, TasksFollow;
    if es == [] {
      NothingHeard(requests, editable);
    } else {
      var u, e := es[..|es| - 1], es[|es| - 1];
      var mid :| Runs(limits, Init(requests, editable), u, mid) && Enabled(mid, e) && t == Apply(limits, mid, e);
      RunCounted(limits, requests, editable, u, mid);
      RunTasks(limits, requests, editable, u, mid);
      StepCounted(limits, mid, u, e);
      assert es == u + [e];
    }
  }

  lemma NothingHeard(requests: seq<Request>, editable: bool)
    ensures Counted([], Init(requests, editable))
  {
  }

  // ------------------------------------------------------------ which floods are slept out

  /** A flood in answer to an edit is slept out, and the edit then sent again, exactly when it is one
      of the first `max_retries` and no longer than `max_wait_seconds`; for a status text moreover
      when it is the first one and no longer than two seconds. Nothing else stops the edits of a
      terminal text. The retry without markup is never slept out. */
  lemma FloodOfAnEdit(limits: Limits, requests: seq<Request>, editable: bool, es: seq<Event>, s: State, i: nat, seconds: nat)
    requires Runs(limits, Init(requests, editable), es, s) && Enabled(s, Answer(i, Flood(seconds)))
    ensures var c, d := s.calls[i], Apply(limits, s, Answer(i, Flood(seconds))).calls[i];
            var n, wait := EditFloods(es, i), Max(seconds, 1);
            var goesOn := && LastEdit(es, i) != Some(BadContent) && n < limits.maxRetries && wait <= limits.maxWait
                          && (c.req.terminal || (n == 0 && wait <= 2));
            && d.pc == (if goesOn then Sleeping else if c.req.terminal then Undelivered else Returned(Skipped))
            && d.sleeps == c.sleeps + (if goesOn then 1 else 0) && d.slept == c.slept + (if goesOn then wait else 0)
  {
    hide Runs, EditFloods, RequestFloods, LastEdit;
    RunCounted(limits, requests, editable, es, s);
    assert CountsAt(es, s, i);
  }

  /** A flood in answer to a new message or a deletion is slept out, and the request sent again,
      exactly when it is one of the first `max_retries` of its kind and no longer than
      `max_wait_seconds`; otherwise the request has failed. */
  lemma FloodOfARequest(limits: Limits, requests: seq<Request>, editable: bool, es: seq<Event>, s: State, i: nat,
                        phase: Phase, seconds: nat)
    requires Runs(limits, Init(requests, editable), es, s) && Enabled(s, Response(i, phase, Flooded(seconds)))
    ensures var c, t := s.calls[i], Apply(limits, s, Response(i, phase, Flooded(seconds)));
            var n, wait := RequestFloods(es, i, phase.Delete?), Max(seconds, 1);
            if n < limits.maxRetries && wait <= limits.maxWait then
              && t.calls[i].pc.Pausing? && t.calls[i].pc.phase == phase
              && t.calls[i].sleeps == c.sleeps + 1 && t.calls[i].slept == c.slept + wait
              && Enabled(t, Wake(i)) && Apply(limits, t, Wake(i)).calls[i].pc.Sending?
              && Apply(limits, t, Wake(i)).calls[i].pc.phase == phase
            else t == Apply(limits, s, Response(i, phase, Rejected))
  {
    hide Runs, EditFloods, RequestFloods, LastEdit, Settled;
    RunCounted(limits, requests, editable, es, s);
    assert CountsAt(es, s, i);
  }

  // ------------------------------------------------------------ when a status text is dropped

  ghost predicate FieldsAre(editable: bool, es: seq<Event>, s: State) {
    (s.reporter.completed <==> TerminalBegan(s)) && (s.reporter.uneditable <==> Stuck(editable, es))
  }

  /** How a step moves the latch and the flag. */
  predicate MovesFields(s: State, t: State, e: Event) {
    && e.i < |s.calls|
    && (t.reporter.completed <==> s.reporter.completed || (e.Enter? && s.calls[e.i].req.terminal))
    && (t.reporter.uneditable <==>
          if (e.Answer? && Through(Some(e.reply))) || (e.Response? && e.phase.Respond? && e.result.Sent?) then false
          else s.reporter.uneditable || (e.Answer? && e.reply.NotEditable? && s.calls[e.i].pc.Editing?))
  }

  lemma AnswerFields(limits: Limits, s: State, e: Event)
    requires Enabled(s, e) && e.Answer? && (s.calls[e.i].req.terminal ==> s.reporter.completed)
    ensures MovesFields(s, Apply(limits, s, e), e)
  {
    hide TooLong, WaitSeconds, ShownBy, Posted, Cancelling;
  }

  lemma ResponseFields(limits: Limits, s: State, e: Event)
    requires Enabled(s, e) && e.Response? && (s.calls[e.i].req.terminal ==> s.reporter.completed)
    ensures MovesFields(s, Apply(limits, s, e), e)
  {
    hide Exceeds, WaitSeconds, ShownBy, Posted, Wiped, Cancelling;
  }

  lemma OtherFields(limits: Limits, s: State, e: Event)
    requires Enabled(s, e) && !e.Answer? && !e.Response? && (!s.calls[e.i].task.NoTask? ==> s.reporter.completed)
    ensures MovesFields(s, Apply(limits, s, e), e)
  {
    hide SameShown, Refused, ButtonsOf, Stale, OnReply, OnPlainReply, OnResponse, Effect, NextTask, Cancelling;
    if e.Retry? {
      EffectCalls(s, s.calls[e.i], e.route);
    }
  }

  lemma StepFields(limits: Limits, s: State, editable: bool, es: seq<Event>, e: Event)
    requires Enabled(s, e) && TasksFollow(s) && LatchFirst(s) && Counted(es, s) && FieldsAre(editable, es, s)
    ensures FieldsAre(editable, es + [e], Apply(limits, s, e))
  {
    hide Apply, EditFloods, RequestFloods, LastEdit;
    assert (es + [e])[..|es|] == es;
    assert CountsAt(es, s, e.i);
    if e.Answer? {
      AnswerFields(limits, s, e);
    } else if e.Response? {
      ResponseFields(limits, s, e);
    } else {
      OtherFields(limits, s, e);
    }
    Beginnings(limits, s, e);
  }

  /** Only entering begins a call. */
  lemma Beginnings(limits: Limits, s: State, e: Event)
    requires Enabled(s, e) && TasksFollow(s)
    ensures TerminalBegan(Apply(limits, s, e)) <==> TerminalBegan(s) || (e.Enter? && s.calls[e.i].req.terminal)
  {
    hide Apply;
    OthersStay(limits, s, e);
    MoverBegins(limits, s, e);
    var t := Apply(limits, s, e);
    if j :| 0 <= j < |s.calls| && s.calls[j].req.terminal && !s.calls[j].pc.Ready? {
      assert t.calls[j].req.terminal && !t.calls[j].pc.Ready?;
    }
    if e.Enter? && s.calls[e.i].req.terminal {
      assert t.calls[e.i].req.terminal;
    }
    if j :| 0 <= j < |t.calls| && t.calls[j].req.terminal && !t.calls[j].pc.Ready? {
      assert j != e.i ==> s.calls[j].req.terminal && !s.calls[j].pc.Ready?;
    }
  }

  lemma MoverBegins(limits: Limits, s: State, e: Event)
    requires Enabled(s, e) && TasksFollow(s)
    ensures !Apply(limits, s, e).calls[e.i].pc.Ready? && (s.calls[e.i].pc.Ready? <==> e.Enter?)
  {
    hide SameShown, Refused, ButtonsOf, Stale, OnReply, OnPlainReply, OnResponse, OnRetry;
    assert TaskFollows(s.calls[e.i]);
    match e
    case Answer(i, reply) => ReplyOnly(limits, s, i, reply);
    case Response(i, phase, result) => ResponseOnly(limits, s, i, phase, s.calls[i].pc.floods, result);
    case Retry(i, route, ok) => RetryOnly(s, i, route, ok);
    case _ =>
  }

  lemma {:induction false} RunFields(limits: Limits, requests: seq<Request>, editable: bool, es: seq<Event>, t: State)
    requires Runs(limits, Init(requests, editable), es, t)
    ensures FieldsAre(editable, es, t)
    decreases |es|
  {
    hide Apply, Counted, FieldsAre, Inv, LatchFirst, TasksFollow;
    if es == [] {
      FieldsAtFirst(requests, editable);
    } else {
      var u, e := es[..|es| - 1], es[|es| - 1];
      var mid :| Runs(limits, Init(requests, editable), u, mid) && Enabled(mid, e) && t == Apply(limits, mid, e);
      RunFields(limits, requests, editable, u, mid);
      RunCounted(limits, requests, editable, u, mid);
      RunInv(limits, requests, editable, u, mid);
      InvLatches(mid);
      StepFields(limits, mid, editable, u, e);
      assert es == u + [e];
    }
  }

  lemma FieldsAtFirst(requests: seq<Request>, editable: bool)
    ensures FieldsAre(editable, [], Init(requests, editable))
  {
  }

  lemma InvLatches(s: State)
    requires Inv(s)
    ensures LatchFirst(s) && TasksFollow(s)
  {
    hide LatchFirst, TasksFollow;
  }

  /** A status text is discarded on entry exactly when a terminal update has begun or the message
      was last found uneditable. Any other text is skipped as the same exactly when it is the one on
      record with the same buttons, or a status text that gives none. Later a status text gives way
      exactly when a terminal update has begun or the text recorded last is of a later call. A
      terminal text never gives way. */
  lemma WhenDropped(limits: Limits, requests: seq<Request>, editable: bool, es: seq<Event>, s: State, e: Event)
    requires Runs(limits, Init(requests, editable), es, s) && Enabled(s, e)
    requires e.Enter? || e.Lock? || (e.Wake? && s.calls[e.i].pc.Sleeping?)
    ensures var c, d := s.calls[e.i], Apply(limits, s, e).calls[e.i];
            && (e.Enter? ==>
                  (d.pc == Returned(Discarded) <==> !c.req.terminal && (TerminalBegan(s) || Stuck(editable, es)))
                  && (d.pc == Returned(Same) <==>
                        && d.pc != Returned(Discarded) && s.reporter.lastText == Some(c.req.text)
                        && ((if c.req.terminal && c.req.buttons.None? then c.req.failureButtons else c.req.buttons)
                              == s.reporter.lastButtons
                            || (!c.req.terminal && c.req.buttons.None?))))
            && (!e.Enter? ==>
                  d.pc == if !c.req.terminal && (TerminalBegan(s) || c.number < s.reporter.lastApplied) then Returned(Overtaken)
                          else if e.Lock? then Editing else Waiting)
  {
    hide Runs, Stuck, TerminalBegan, OnReply, OnPlainReply, OnResponse, OnRetry;
    RunFields(limits, requests, editable, es, s);
  }
}

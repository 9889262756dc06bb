/** How `update` calls end (telegram/progress.py): by which replies a terminal text gets through
    or is lost, and what is in the log by then. */
module ProgressEnds {
  import opened Common
  import opened Progress

  // ------------------------------------------------------------ the replies a call got

  /** The latest reply to an edit of call `i`. */
  ghost function LastEdit(es: seq<Event>, i: nat): Option<Reply> {
    if es == [] then None
    else
      var e := es[|es| - 1];
      if e.Answer? && e.i == i then Some(e.reply) else LastEdit(es[..|es| - 1], i)
  }

  /** The latest reply to its new message. */
  ghost function LastMessage(es: seq<Event>, i: nat): Option<Sending> {
    if es == [] then None
    else
      var e := es[|es| - 1];
      if e.Response? && e.i == i && e.phase.Respond? then Some(e.result) else LastMessage(es[..|es| - 1], i)
  }

  /** The latest reply to its deletion of the old message. */
  ghost function LastDeletion(es: seq<Event>, i: nat): Option<Sending> {
    if es == [] then None
    else
      var e := es[|es| - 1];
      if e.Response? && e.i == i && e.phase.Delete? then Some(e.result) else LastDeletion(es[..|es| - 1], i)
  }

  /** What the place of a call says about the replies it got. */
  predicate Agrees(c: Call, edit: Option<Reply>, message: Option<Sending>, deletion: Option<Sending>) {
    match c.pc
    case Ready => edit.None? && message.None? && deletion.None?
    case Undelivered => edit.Some? && !Through(edit) && message.None? && deletion.None?
    case Sending(phase, _) => edit.Some? && !Through(edit) && InPhase(phase, message, deletion)
    case Pausing(phase, _) => edit.Some? && !Through(edit) && InPhase(phase, message, deletion)
    case Returned(outcome) =>
      (match outcome
       case Delivered => Through(edit) || message == Some(Sent)
       case Lost =>
         && edit.Some? && !Through(edit) && message.Some? && message != Some(Sent) && deletion.Some?
         && (c.task.NoTask? <==> deletion == Some(Sent) && !c.req.isFailure)
       case Same => edit.None? && message.None?
       case Cancelled => true
       case _ => !c.req.terminal)
    case _ => !Through(edit) && message.None? && deletion.None?
  }

  predicate InPhase(phase: Phase, message: Option<Sending>, deletion: Option<Sending>) {
    if phase.Respond? then message != Some(Sent) && deletion.None?
    else message.Some? && (phase.shown <==> message == Some(Sent)) && deletion != Some(Sent)
  }

  ghost predicate AllAgree(es: seq<Event>, s: State) {
    forall i: nat :: i < |s.calls| ==> Agrees(s.calls[i], LastEdit(es, i), LastMessage(es, i), LastDeletion(es, i))
  }

  lemma OneMoreReply(es: seq<Event>, e: Event, i: nat)
    ensures LastEdit(es + [e], i) == if e.Answer? && e.i == i then Some(e.reply) else LastEdit(es, i)
    ensures LastMessage(es + [e], i) == if e.Response? && e.i == i && e.phase.Respond? then Some(e.result) else LastMessage(es, i)
    ensures LastDeletion(es + [e], i) == if e.Response? && e.i == i && e.phase.Delete? then Some(e.result) else LastDeletion(es, i)
  {
    assert (es + [e])[..|es|] == es;
  }

  lemma DeliveredCall(s: State, i: nat, buttons: Buttons)
    requires i < |s.calls|
    ensures DeliveredBy(s, i, buttons).calls == s.calls[i := s.calls[i].(pc := Returned(Delivered))]
  {
    hide Recorded, ShownBy, Cancelling, Posted;
  }

  lemma AnswerAgrees(limits: Limits, s: State, e: Event, edit: Option<Reply>, message: Option<Sending>, deletion: Option<Sending>)
    requires Enabled(s, e) && e.Answer? && TaskFollows(s.calls[e.i]) && Agrees(s.calls[e.i], edit, message, deletion)
    ensures Agrees(Apply(limits, s, e).calls[e.i], Some(e.reply), message, deletion)
  {
    hide DeliveredBy, TooLong, WaitSeconds;
    DeliveredCall(s, e.i, s.calls[e.i].buttons);
    DeliveredCall(s, e.i, None);
  }

  lemma ResponseAgrees(limits: Limits, s: State, e: Event, edit: Option<Reply>, message: Option<Sending>, deletion: Option<Sending>)
    requires Enabled(s, e) && e.Response? && TaskFollows(s.calls[e.i]) && Agrees(s.calls[e.i], edit, message, deletion)
    ensures Agrees(Apply(limits, s, e).calls[e.i], edit, if e.phase.Respond? then Some(e.result) else message,
                   if e.phase.Delete? then Some(e.result) else deletion)
  {
    hide Recorded, ShownBy, Exceeds, WaitSeconds;
  }

  lemma OtherAgrees(limits: Limits, s: State, e: Event, edit: Option<Reply>, message: Option<Sending>, deletion: Option<Sending>)
    requires Enabled(s, e) && !e.Response? && !e.Answer? && TaskFollows(s.calls[e.i])
    requires Agrees(s.calls[e.i], edit, message, deletion)
    ensures Agrees(Apply(limits, s, e).calls[e.i], edit, message, deletion)
  {
    hide Recorded, Entered, ButtonsOf, OnReply, OnPlainReply, OnResponse, OnRetry, SameShown, ShownBy;
    if e.Retry? {
      RetryOnly(s, e.i, e.route, e.ok);
    }
  }

  lemma StepAgrees(limits: Limits, s: State, es: seq<Event>, e: Event)
    requires Enabled(s, e) && TasksFollow(s) && AllAgree(es, s)
    ensures AllAgree(es + [e], Apply(limits, s, e))
  {
    hide Apply, Agrees, LastEdit, LastMessage, LastDeletion;
    OthersStay(limits, s, e);
    var t := Apply(limits, s, e);
    var j := e.i;
    var edit, message, deletion := LastEdit(es, j), LastMessage(es, j), LastDeletion(es, j);
    assert Agrees(s.calls[j], edit, message, deletion);
    forall i: nat | i < |t.calls|
      ensures Agrees(t.calls[i], LastEdit(es + [e], i), LastMessage(es + [e], i), LastDeletion(es + [e], i))
    {
      OneMoreReply(es, e, i);
      if i != j {
        assert t.calls[i] == s.calls[i];
      } else if e.Answer? {
        AnswerAgrees(limits, s, e, edit, message, deletion);
      } else if e.Response? {
        ResponseAgrees(limits, s, e, edit, message, deletion);
      } else {
        OtherAgrees(limits, s, e, edit, message, deletion);
      }
    }
  }

  lemma {:induction false} RunAgrees(limits: Limits, requests: seq<Request>, editable: bool, es: seq<Event>, t: State)
    requires Runs(limits, Init(requests, editable), es, t)
    ensures AllAgree(es, t)
    decreases |es|
  {
    hide Apply, Agrees;
    if es == [] {
      StartAgrees(requests, editable);
    } else {
      var u, e := es[..|es| - 1], es[|es| - 1];
      var mid :| Runs(limits, Init(requests, editable), u, mid) && Enabled(mid, e) && t == Apply(limits, mid, e);
      RunAgrees(limits, requests, editable, u, mid);
      RunTasks(limits, requests, editable, u, mid);
      StepAgrees(limits, mid, u, e);
      assert es == u + [e];
    }
  }

  lemma StartAgrees(requests: seq<Request>, editable: bool)
    ensures AllAgree([], Init(requests, editable))
  {
  }

  lemma RunTasks(limits: Limits, requests: seq<Request>, editable: bool, es: seq<Event>, t: State)
    requires Runs(limits, Init(requests, editable), es, t)
    ensures TasksFollow(t)
  {
    hide LockIsHeld, TasksFollow, LatchFirst, SealHolds, Numbered, NotShownTwice, Ahead, TerminalLast, InOrder;
    RunInv(limits, requests, editable, es, t);
  }

  // ------------------------------------------------------------ delivered, or lost

  /** The user saw the call's text, on some message. */
  ghost predicate InLog(log: seq<Shown>, c: Call) { exists k :: 0 <= k < |log| && log[k] == ShownBy(c, log[k].at) }

  ghost predicate Told(s: State) {
    forall i :: 0 <= i < |s.calls| && OnScreen(s.calls[i]) ==> InLog(s.log, s.calls[i])
  }

  /** A new message is out and the old one is being deleted. */
  predicate AfterShowing(pc: Pc) { (pc.Sending? || pc.Pausing?) && pc.phase == Delete(true) }

  predicate OnScreen(c: Call) { c.pc == Returned(Delivered) || AfterShowing(c.pc) }

  lemma AnswerTold(limits: Limits, s: State, e: Event)
    requires Enabled(s, e) && e.Answer?
    ensures OnScreen(Apply(limits, s, e).calls[e.i]) ==> Shows(s, e)
  {
    hide Recorded, TooLong, WaitSeconds, ShownBy;
  }

  lemma ResponseTold(limits: Limits, s: State, e: Event)
    requires Enabled(s, e) && e.Response?
    ensures OnScreen(Apply(limits, s, e).calls[e.i]) ==> Shows(s, e) || OnScreen(s.calls[e.i])
  {
    hide Recorded, Exceeds, WaitSeconds, ShownBy;
  }

  lemma OtherTold(limits: Limits, s: State, e: Event)
    requires Enabled(s, e) && !e.Response? && !e.Answer? && TaskFollows(s.calls[e.i])
    ensures OnScreen(Apply(limits, s, e).calls[e.i]) ==> OnScreen(s.calls[e.i])
  {
    hide Recorded, Entered, ButtonsOf, OnReply, OnPlainReply, OnResponse, OnRetry, SameShown, ShownBy;
    if e.Retry? {
      RetryOnly(s, e.i, e.route, e.ok);
    }
  }

  lemma MoverTold(limits: Limits, s: State, e: Event)
    requires Enabled(s, e) && TaskFollows(s.calls[e.i])
    ensures var d := Apply(limits, s, e).calls[e.i];
            && (OnScreen(d) ==> Shows(s, e) || OnScreen(s.calls[e.i]))
            && (!e.Enter? ==> d.number == s.calls[e.i].number && d.req == s.calls[e.i].req)
  {
    hide Apply, OnScreen;
    MoverNumber(limits, s, e);
    OthersStay(limits, s, e);
    if e.Answer? {
      AnswerTold(limits, s, e);
    } else if e.Response? {
      ResponseTold(limits, s, e);
    } else {
      OtherTold(limits, s, e);
    }
  }

  lemma InLogStays(log: seq<Shown>, more: seq<Shown>, c: Call, d: Call)
    requires InLog(log, c) && c.number == d.number && c.req == d.req
    ensures InLog(log + more, d)
  {
    var k :| 0 <= k < |log| && log[k] == ShownBy(c, log[k].at);
    assert (log + more)[k] == log[k];
  }

  lemma InLogNow(log: seq<Shown>, c: Call, d: Call, at: nat)
    requires c.number == d.number && c.req == d.req
    ensures InLog(log + [ShownBy(c, at)], d)
  {
    assert (log + [ShownBy(c, at)])[|log|] == ShownBy(d, at);
  }

  lemma StepTold(limits: Limits, s: State, e: Event)
    requires Enabled(s, e) && TasksFollow(s) && Told(s)
    ensures Told(Apply(limits, s, e))
  {
    hide Apply, ShownBy, InLog, ShownWhere, OnScreen, Shows;
    LogGrows(limits, s, e);
    OthersStay(limits, s, e);
    MoverTold(limits, s, e);
    MoverNumber(limits, s, e);
    var t := Apply(limits, s, e);
    assert t.log == s.log + t.log[|s.log|..];
    forall i | 0 <= i < |t.calls| && OnScreen(t.calls[i])
      ensures InLog(t.log, t.calls[i])
    {
      if i != e.i || (OnScreen(s.calls[i]) && !e.Enter?) {
        assert InLog(s.log, s.calls[i]);
        InLogStays(s.log, t.log[|s.log|..], s.calls[i], t.calls[i]);
      } else if e.Enter? {
        NotOnEnter(limits, s, e);
      } else {
        InLogNow(s.log, s.calls[i], t.calls[i], ShownWhere(s, e));
      }
    }
  }

  lemma NotOnEnter(limits: Limits, s: State, e: Event)
    requires Enabled(s, e) && e.Enter?
    ensures !OnScreen(Apply(limits, s, e).calls[e.i])
  {
    hide SameShown, Refused, ButtonsOf, Entered;
  }

  lemma {:induction false} RunTold(limits: Limits, requests: seq<Request>, editable: bool, es: seq<Event>, t: State)
    requires Runs(limits, Init(requests, editable), es, t)
    ensures Told(t)
    decreases |es|
  {
    hide Apply;
    if es != [] {
      var u, e := es[..|es| - 1], es[|es| - 1];
      var mid :| Runs(limits, Init(requests, editable), u, mid) && Enabled(mid, e) && t == Apply(limits, mid, e);
      RunTold(limits, requests, editable, u, mid);
      RunTasks(limits, requests, editable, u, mid);
      StepTold(limits, mid, e);
    }
  }

  /** How a terminal update can come back: shown, skipped because the same text was recorded
      last, cancelled, or lost. It is lost exactly when neither its edits nor its new message
      got through. A shown one is in the log, and the last text shown is then a terminal one.
      A lost one leaves a background retry exactly when it reports a failure or the old message
      could not be deleted; while that retry sleeps the text was not shown, and it will ask for
      something exactly when no terminal text got through before it wakes up. */
  lemma HowTerminalsEnd(limits: Limits, requests: seq<Request>, editable: bool, es: seq<Event>, t: State, i: nat)
    requires Runs(limits, Init(requests, editable), es, t)
    requires i < |t.calls| && t.calls[i].req.terminal && t.calls[i].pc.Returned?
    ensures var c := t.calls[i];
            && c.pc.outcome in {Delivered, Same, Lost, Cancelled}
            && (c.pc.outcome in {Delivered, Lost} ==>
                  (c.pc.outcome == Lost <==> !Through(LastEdit(es, i)) && LastMessage(es, i) != Some(Sent)))
            && (c.pc.outcome == Delivered ==> InLog(t.log, c) && t.log[|t.log| - 1].terminal)
            && (c.pc.outcome == Lost ==>
                  (c.task.NoTask? <==> LastDeletion(es, i) == Some(Sent) && !c.req.isFailure))
            && (c.task.Asleep? ==>
                  && (forall k :: 0 <= k < |t.log| ==> t.log[k].number != c.number)
                  && Enabled(t, Rouse(i)) && (Asks(limits, t, i) <==> !t.reporter.delivered))
  {
    hide Runs, Inv, AllAgree, Told, Agrees, InLog, Asks;
    RunInv(limits, requests, editable, es, t);
    RunTold(limits, requests, editable, es, t);
    RunAgrees(limits, requests, editable, es, t);
    RunTasks(limits, requests, editable, es, t);
    OutcomeAgrees(es, t, i);
    if t.calls[i].pc == Returned(Delivered) {
      DeliveredIsLast(t, i);
    }
    if t.calls[i].task.Asleep? {
      assert TaskFollows(t.calls[i]);
      LostIsNotShown(t, i);
      WhenItAsks(limits, t, i);
    }
  }

  /** The sleeping retry goes on to a request when it wakes up. */
  ghost predicate Asks(limits: Limits, s: State, i: nat)
    requires Enabled(s, Rouse(i))
  {
    i < |Apply(limits, s, Rouse(i)).calls| && Apply(limits, s, Rouse(i)).calls[i].task.Asking?
  }

  lemma WhenItAsks(limits: Limits, s: State, i: nat)
    requires i < |s.calls| && s.calls[i].task.Asleep?
    ensures Enabled(s, Rouse(i)) && (Asks(limits, s, i) <==> !s.reporter.delivered)
  {
    hide OnReply, OnPlainReply, OnResponse, OnRetry;
  }

  lemma OutcomeAgrees(es: seq<Event>, t: State, i: nat)
    requires AllAgree(es, t) && i < |t.calls| && t.calls[i].req.terminal && t.calls[i].pc.Returned?
    ensures var c := t.calls[i];
            && c.pc.outcome in {Delivered, Same, Lost, Cancelled}
            && (c.pc.outcome in {Delivered, Lost} ==>
                  (c.pc.outcome == Lost <==> !Through(LastEdit(es, i)) && LastMessage(es, i) != Some(Sent)))
            && (c.pc.outcome == Lost ==> (c.task.NoTask? <==> LastDeletion(es, i) == Some(Sent) && !c.req.isFailure))
  {
    hide LastEdit, LastMessage, LastDeletion;
    assert Agrees(t.calls[i], LastEdit(es, i), LastMessage(es, i), LastDeletion(es, i));
  }

  lemma DeliveredIsLast(t: State, i: nat)
    requires Inv(t) && Told(t) && i < |t.calls| && t.calls[i].req.terminal && t.calls[i].pc == Returned(Delivered)
    ensures InLog(t.log, t.calls[i]) && t.log[|t.log| - 1].terminal
  {
    hide LockIsHeld, LatchFirst, SealHolds, Numbered, NotShownTwice, Ahead, InOrder, TasksFollow;
    assert OnScreen(t.calls[i]);
    var k :| 0 <= k < |t.log| && t.log[k] == ShownBy(t.calls[i], t.log[k].at);
  }

  lemma LostIsNotShown(t: State, i: nat)
    requires Inv(t) && i < |t.calls| && t.calls[i].pc == Returned(Lost) && t.calls[i].task.Asleep?
    ensures forall k :: 0 <= k < |t.log| ==> t.log[k].number != t.calls[i].number
  {
    hide LockIsHeld, LatchFirst, SealHolds, Numbered, Ahead, InOrder, TerminalLast, TasksFollow;
    assert Active(t.calls[i]);
  }
}

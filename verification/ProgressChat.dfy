/** What stands in the chat (telegram/progress.py): the messages of one request, who may change
    them, and when an update that is skipped as "the same" is right to be. */
module ProgressChat {
  import opened Common
  import opened Progress
  import opened ProgressEnds

  // ------------------------------------------------------------ messages and their texts

  /** The text shown last on message `m`. */
  function Newest(log: seq<Shown>, m: nat): string {
    if log == [] then FIRST_TEXT
    else if log[|log| - 1].at == m then log[|log| - 1].text else Newest(log[..|log| - 1], m)
  }

  /** Some call, or its retry, deleted message `m`. */
  ghost predicate Deleted(calls: seq<Call>, m: nat) { exists j :: 0 <= j < |calls| && calls[j].wiped && calls[j].target == m }

  ghost predicate InChat(s: State) {
    && s.reporter.message < |s.chat|
    && (forall i :: 0 <= i < |s.calls| ==> s.calls[i].target < |s.chat|)
    && (forall k :: 0 <= k < |s.log| ==> s.log[k].at < |s.chat|)
  }

  /** A call deletes as the last thing it does. */
  predicate WipesLast(c: Call) { c.wiped ==> c.pc.Returned? }

  ghost predicate AllWipeLast(s: State) { forall i :: 0 <= i < |s.calls| ==> WipesLast(s.calls[i]) }

  /** A message is gone exactly when somebody deleted it, and else has the text shown on it last. */
  ghost predicate TextsAre(s: State) {
    forall m :: 0 <= m < |s.chat| ==>
      (s.chat[m].None? <==> Deleted(s.calls, m)) && (s.chat[m].Some? ==> s.chat[m].value == Newest(s.log, m))
  }

  ghost predicate ChatInv(s: State) { InChat(s) && AllWipeLast(s) && TextsAre(s) }

  /** What one event does to the chat: nothing, a text on a standing or a new message, or the
      deletion of the mover's message. */
  datatype Move = Still | Post(at: nat, shown: Shown) | Wipe(at: nat)

  function MoveOf(s: State, e: Event): Move
    requires Enabled(s, e)
  {
    var c := s.calls[e.i];
    if Shows(s, e) then Post(ShownWhere(s, e), ShownBy(c, ShownWhere(s, e)))
    else if Blames(e) then Post(c.target, Shown(0, true, FAILED_TEXT, c.target))
    else if e.Response? && e.phase.Delete? && e.result.Sent? then Wipe(c.target)
    else if e.Retry? && e.ok then Wipe(c.target)
    else Still
  }

  function Moved(chat: seq<Option<string>>, move: Move): seq<Option<string>> {
    match move
    case Still => chat
    case Post(at, shown) => Posted(chat, at, shown.text)
    case Wipe(at) => Wiped(chat, at)
  }

  /** Where the mover's message is afterwards, and whether it deleted it. */
  predicate Follows(s: State, t: State, i: nat, move: Move) {
    && i < |s.calls| == |t.calls|
    && t.chat == Moved(s.chat, move)
    && t.calls[i].wiped == (s.calls[i].wiped || move.Wipe?)
    && (t.calls[i].target == s.calls[i].target || (!t.calls[i].wiped && t.calls[i].target == s.reporter.message))
    && (t.reporter.message == s.reporter.message || (t.reporter.message == |s.chat| && |t.chat| == |s.chat| + 1))
    && (move.Wipe? ==> t.calls[i].target == s.calls[i].target == move.at && t.calls[i].pc.Returned?)
    && (s.calls[i].wiped ==> t.calls[i].target == s.calls[i].target && t.calls[i].pc == s.calls[i].pc)
  }

  lemma AnswerChat(limits: Limits, s: State, e: Event)
    requires Enabled(s, e) && e.Answer? && WipesLast(s.calls[e.i])
    ensures Follows(s, Apply(limits, s, e), e.i, MoveOf(s, e))
  {
    hide Cancelling, Posted, WaitSeconds, TooLong;
  }

  lemma ResponseChat(limits: Limits, s: State, e: Event)
    requires Enabled(s, e) && e.Response? && WipesLast(s.calls[e.i])
    ensures Follows(s, Apply(limits, s, e), e.i, MoveOf(s, e))
  {
    hide Recorded, Cancelling, Wiped, WaitSeconds, Exceeds;
  }

  lemma RetryChat(limits: Limits, s: State, e: Event)
    requires Enabled(s, e) && e.Retry? && TaskFollows(s.calls[e.i])
    ensures Follows(s, Apply(limits, s, e), e.i, MoveOf(s, e))
  {
    hide Cancelling, Wiped, NextTask;
  }

  lemma OtherChat(limits: Limits, s: State, e: Event)
    requires Enabled(s, e) && !e.Answer? && !e.Response? && !e.Retry? && WipesLast(s.calls[e.i]) && TaskFollows(s.calls[e.i])
    ensures Follows(s, Apply(limits, s, e), e.i, MoveOf(s, e))
  {
    hide SameShown, Refused, ButtonsOf, OnReply, OnPlainReply, OnResponse, OnRetry, Stale;
  }

  lemma ChatMoves(limits: Limits, s: State, e: Event)
    requires Enabled(s, e) && WipesLast(s.calls[e.i]) && TaskFollows(s.calls[e.i])
    ensures Follows(s, Apply(limits, s, e), e.i, MoveOf(s, e))
    ensures Apply(limits, s, e).log == if MoveOf(s, e).Post? then s.log + [MoveOf(s, e).shown] else s.log
    ensures MoveOf(s, e).Post? ==> MoveOf(s, e).shown.at == MoveOf(s, e).at
    ensures MoveOf(s, e).Post? ==> MoveOf(s, e).at == |s.chat| || Stands(s, MoveOf(s, e).at)
  {
    hide Apply, Follows;
    LogGrows(limits, s, e);
    if e.Answer? {
      AnswerChat(limits, s, e);
    } else if e.Response? {
      ResponseChat(limits, s, e);
    } else if e.Retry? {
      RetryChat(limits, s, e);
    } else {
      OtherChat(limits, s, e);
    }
  }

  lemma NewestNext(log: seq<Shown>, x: Shown, m: nat)
    ensures Newest(log + [x], m) == if x.at == m then x.text else Newest(log, m)
  {
    assert (log + [x])[..|log|] == log;
  }

  lemma {:induction false} NewestOfNone(log: seq<Shown>, m: nat)
    requires forall k :: 0 <= k < |log| ==> log[k].at < m
    ensures Newest(log, m) == FIRST_TEXT
  {
    if log != [] {
      NewestOfNone(log[..|log| - 1], m);
    }
  }

  lemma StepInChat(limits: Limits, s: State, e: Event)
    requires Enabled(s, e) && TasksFollow(s) && ChatInv(s)
    ensures InChat(Apply(limits, s, e)) && AllWipeLast(Apply(limits, s, e))
  {
    hide Apply, TextsAre, TaskFollows, MoveOf;
    OthersStay(limits, s, e);
    assert WipesLast(s.calls[e.i]) && TaskFollows(s.calls[e.i]);
    ChatMoves(limits, s, e);
    var t := Apply(limits, s, e);
    forall i | 0 <= i < |t.calls| ensures t.calls[i].target < |t.chat| && WipesLast(t.calls[i]) {
      if i != e.i {
        assert t.calls[i] == s.calls[i];
      }
    }
  }

  /** Who deleted what after a step. */
  lemma DeletedAfter(s: State, t: State, i: nat, move: Move, m: nat)
    requires InChat(s) && m < |s.chat| && Follows(s, t, i, move) && t.calls == s.calls[i := t.calls[i]]
    ensures Deleted(t.calls, m) <==> Deleted(s.calls, m) || move == Wipe(m)
  {
    if j :| 0 <= j < |s.calls| && s.calls[j].wiped && s.calls[j].target == m {
      assert t.calls[j].wiped && t.calls[j].target == m;
    }
    if move == Wipe(m) {
      assert t.calls[i].wiped && t.calls[i].target == m;
    }
    if j :| 0 <= j < |t.calls| && t.calls[j].wiped && t.calls[j].target == m {
      assert j != i ==> s.calls[j].wiped && s.calls[j].target == m;
      assert j == i && s.calls[i].wiped ==> s.calls[i].target == m;
    }
  }

  lemma NothingDeleted(s: State, t: State, i: nat, move: Move)
    requires InChat(s) && Follows(s, t, i, move) && t.calls == s.calls[i := t.calls[i]]
    ensures !Deleted(t.calls, |s.chat|)
  {
  }

  lemma StepTexts(limits: Limits, s: State, e: Event)
    requires Enabled(s, e) && TasksFollow(s) && ChatInv(s)
    ensures TextsAre(Apply(limits, s, e))
  {
    hide Apply, TaskFollows, MoveOf, Deleted, Newest, Follows, InChat;
    OthersStay(limits, s, e);
    assert WipesLast(s.calls[e.i]) && TaskFollows(s.calls[e.i]);
    ChatMoves(limits, s, e);
    var t, move := Apply(limits, s, e), MoveOf(s, e);
    ChatIsMoved(s, t, e.i, move);
    forall m | 0 <= m < |t.chat|
      ensures (t.chat[m].None? <==> Deleted(t.calls, m)) && (t.chat[m].Some? ==> t.chat[m].value == Newest(t.log, m))
    {
      if m < |s.chat| {
        DeletedAfter(s, t, e.i, move, m);
      } else {
        NothingDeleted(s, t, e.i, move);
      }
      if move.Post? {
        NewestNext(s.log, move.shown, m);
      }
    }
  }

  lemma ChatIsMoved(s: State, t: State, i: nat, move: Move)
    requires Follows(s, t, i, move)
    ensures t.chat == Moved(s.chat, move)
  {
  }

  lemma {:induction false} RunChat(limits: Limits, requests: seq<Request>, editable: bool, es: seq<Event>, t: State)
    requires Runs(limits, Init(requests, editable), es, t)
    ensures ChatInv(t)
    decreases |es|
  {
    hide Apply, ChatInv;
    if es == [] {
      StartChat(requests, editable);
    } else {
      var u, e := es[..|es| - 1], es[|es| - 1];
      var mid :| Runs(limits, Init(requests, editable), u, mid) && Enabled(mid, e) && t == Apply(limits, mid, e);
      RunChat(limits, requests, editable, u, mid);
      RunTasks(limits, requests, editable, u, mid);
      StepChat(limits, mid, e);
    }
  }

  lemma StepChat(limits: Limits, s: State, e: Event)
    requires Enabled(s, e) && TasksFollow(s) && ChatInv(s)
    ensures ChatInv(Apply(limits, s, e))
  {
    hide Apply, TextsAre, InChat, AllWipeLast, TasksFollow;
    StepInChat(limits, s, e);
    StepTexts(limits, s, e);
  }

  lemma StartChat(requests: seq<Request>, editable: bool)
    ensures ChatInv(Init(requests, editable))
  {
  }

  // ------------------------------------------------------------ what is on record

  /** What the reporter takes for visible was shown, and nobody but retries showed anything since. */
  ghost predicate OnRecordAt(s: State, k: nat) {
    && k < |s.log| && s.log[k].number == s.reporter.lastApplied >= 1 && s.reporter.lastText == Some(s.log[k].text)
    && forall n :: k < n < |s.log| ==> ByRetry(s, s.log[n])
  }

  /** A text shown for a call that had come back without it, or the general one in its place. */
  ghost predicate ByRetry(s: State, x: Shown) {
    x.terminal && exists j :: 0 <= j < |s.calls| && ShownLate(s.calls[j], x)
  }

  predicate ShownLate(c: Call, x: Shown) {
    c.pc == Returned(Lost) && (x.number == c.number || (x.number == 0 && x.text == FAILED_TEXT))
  }

  ghost predicate RecordInv(s: State) {
    if s.reporter.lastText.None? then forall n :: 0 <= n < |s.log| ==> ByRetry(s, s.log[n])
    else exists k: nat :: OnRecordAt(s, k)
  }

  /** Only edits and new messages of `update` itself go on record. */
  predicate Records(s: State, e: Event)
    requires Enabled(s, e)
  {
    Shows(s, e) && !e.Retry?
  }

  lemma RecordMoves(limits: Limits, s: State, e: Event)
    requires Enabled(s, e)
    ensures var t := Apply(limits, s, e);
            && (Records(s, e) ==> t.reporter.lastText == Some(s.calls[e.i].req.text) && t.reporter.lastApplied == s.calls[e.i].number)
            && (!Records(s, e) ==> t.reporter.lastText == s.reporter.lastText && t.reporter.lastApplied == s.reporter.lastApplied)
  {
    hide SameShown, Refused, ButtonsOf, OnRetry, Stale, Cancelling, Posted, Wiped, ShownBy, TooLong, WaitSeconds, Exceeds;
    if e.Retry? {
      RetryOnly(s, e.i, e.route, e.ok);
    }
  }

  lemma LostStays(limits: Limits, s: State, e: Event, x: Shown)
    requires Enabled(s, e) && TasksFollow(s) && ByRetry(s, x)
    ensures ByRetry(Apply(limits, s, e), x)
  {
    hide Apply;
    OthersStay(limits, s, e);
    MoverStaysLost(limits, s, e);
    var t := Apply(limits, s, e);
    var j :| 0 <= j < |s.calls| && ShownLate(s.calls[j], x);
    assert ShownLate(t.calls[j], x);
  }

  lemma MoverStaysLost(limits: Limits, s: State, e: Event)
    requires Enabled(s, e)
    ensures s.calls[e.i].pc == Returned(Lost) ==>
              var d := Apply(limits, s, e).calls[e.i]; d.pc == Returned(Lost) && d.number == s.calls[e.i].number
  {
    hide SameShown, Refused, ButtonsOf, OnRetry, Stale, Cancelling, Posted, Wiped, ShownBy, OnReply, OnPlainReply, OnResponse;
    if e.Retry? {
      RetryOnly(s, e.i, e.route, e.ok);
    }
  }

  /** What an event adds to the log without putting it on record is a retry's. */
  lemma AddedByRetry(limits: Limits, s: State, e: Event)
    requires Enabled(s, e) && TasksFollow(s) && LatchFirst(s) && !Records(s, e) && MoveOf(s, e).Post?
    ensures ByRetry(Apply(limits, s, e), MoveOf(s, e).shown)
  {
    hide Apply;
    OthersStay(limits, s, e);
    MoverStaysLost(limits, s, e);
    assert TaskFollows(s.calls[e.i]);
    var t := Apply(limits, s, e);
    assert e.Retry? && OnlyTerminal(s.calls[e.i]);
    assert ShownLate(t.calls[e.i], MoveOf(s, e).shown);
  }

  lemma StepRecord(limits: Limits, s: State, e: Event)
    requires Enabled(s, e) && TasksFollow(s) && ChatInv(s) && LatchFirst(s) && Numbered(s) && RecordInv(s)
    ensures RecordInv(Apply(limits, s, e))
  {
    hide Apply, MoveOf, Records, ByRetry, Follows, InChat, TextsAre, WipesLast, LatchFirst, Numbered;
    assert WipesLast(s.calls[e.i]);
    ChatMoves(limits, s, e);
    RecordMoves(limits, s, e);
    var t := Apply(limits, s, e);
    if Records(s, e) {
      RecordPosts(limits, s, e);
      assert OnRecordAt(t, |s.log|);
    } else {
      if MoveOf(s, e).Post? {
        AddedByRetry(limits, s, e);
      }
      forall n | 0 <= n < |s.log| && ByRetry(s, s.log[n]) ensures ByRetry(t, t.log[n]) {
        LostStays(limits, s, e, s.log[n]);
      }
      if k: nat :| OnRecordAt(s, k) {
        assert OnRecordAt(t, k);
      }
    }
  }

  lemma RecordPosts(limits: Limits, s: State, e: Event)
    requires Enabled(s, e) && Records(s, e) && Numbered(s)
    ensures s.calls[e.i].number >= 1
    ensures MoveOf(s, e).Post? && MoveOf(s, e).shown.number == s.calls[e.i].number && MoveOf(s, e).shown.text == s.calls[e.i].req.text
  {
  }

  lemma {:induction false} RunRecord(limits: Limits, requests: seq<Request>, editable: bool, es: seq<Event>, t: State)
    requires Runs(limits, Init(requests, editable), es, t)
    ensures RecordInv(t)
    decreases |es|
  {
    hide Apply, ChatInv, RecordInv, Inv, LatchFirst, Numbered, TasksFollow;
    if es == [] {
      StartRecord(requests, editable);
    } else {
      var u, e := es[..|es| - 1], es[|es| - 1];
      var mid :| Runs(limits, Init(requests, editable), u, mid) && Enabled(mid, e) && t == Apply(limits, mid, e);
      RunRecord(limits, requests, editable, u, mid);
      RunTasks(limits, requests, editable, u, mid);
      RunChat(limits, requests, editable, u, mid);
      RunInv(limits, requests, editable, u, mid);
      InvGives(mid);
      StepRecord(limits, mid, e);
    }
  }

  lemma InvGives(s: State)
    requires Inv(s)
    ensures LatchFirst(s) && Numbered(s) && TasksFollow(s) && TerminalLast(s.log) && LockIsHeld(s)
  {
    hide LockIsHeld, LatchFirst, SealHolds, Numbered, NotShownTwice, Ahead, InOrder, TasksFollow, TerminalLast;
  }

  lemma StartRecord(requests: seq<Request>, editable: bool)
    ensures RecordInv(Init(requests, editable))
  {
  }

  // ------------------------------------------------------------ "the same"

  predicate ReturnsSame(limits: Limits, s: State, i: nat) {
    Enabled(s, Event.Enter(i)) && Apply(limits, s, Event.Enter(i)).calls[i].pc == Returned(Same)
  }

  lemma SameMeans(limits: Limits, s: State, i: nat)
    requires ReturnsSame(limits, s, i)
    ensures i < |s.calls| && s.reporter.lastText == Some(s.calls[i].req.text)
  {
    hide Entered, ButtonsOf, OnReply, OnPlainReply, OnResponse, OnRetry, Refused;
  }

  /** The message the reporter edits shows `text`. */
  predicate Visible(s: State, text: string) { s.reporter.message < |s.chat| && s.chat[s.reporter.message] == Some(text) }

  /** An update is skipped as "the same" when its text is the one on record. The message really
      shows it exactly when no call and no retry deleted that message, and this text is what was
      shown on it last. */
  lemma SameIsTrueIff(limits: Limits, requests: seq<Request>, editable: bool, es: seq<Event>, t: State, i: nat)
    requires Runs(limits, Init(requests, editable), es, t) && ReturnsSame(limits, t, i)
    ensures i < |t.calls| && t.reporter.lastText == Some(t.calls[i].req.text)
    ensures Visible(t, t.calls[i].req.text) <==>
              !Deleted(t.calls, t.reporter.message) && Newest(t.log, t.reporter.message) == t.calls[i].req.text
  {
    hide Runs, ReturnsSame, Deleted, Newest;
    SameMeans(limits, t, i);
    RunChat(limits, requests, editable, es, t);
  }

  // ------------------------------------------------------------ while no terminal text was lost

  ghost predicate NoneLost(s: State) { forall i :: 0 <= i < |s.calls| ==> s.calls[i].pc != Returned(Lost) }

  /** Whoever holds the lock works on the reporter's message, or deletes one it replaced. */
  predicate Placed(c: Call, message: nat) {
    && (c.wiped ==> c.target < message)
    && (InLock(c.pc) ==> if PutsAside(c.pc) then c.target < message else c.target == message)
  }

  predicate PutsAside(pc: Pc) { (pc.Sending? || pc.Pausing?) && pc.phase == Delete(true) }

  /** The text on record is the last one shown, on the message the reporter edits. */
  ghost predicate Fresh(s: State) {
    && (forall i :: 0 <= i < |s.calls| ==> Placed(s.calls[i], s.reporter.message))
    && (s.reporter.lastText.Some? ==> LastIs(s.log, s.reporter.message, s.reporter.lastText.value))
  }

  predicate LastIs(log: seq<Shown>, m: nat, text: string) { log != [] && log[|log| - 1].at == m && log[|log| - 1].text == text }

  /** A step of a call that has the lock keeps its message in place, or moves the reporter on. */
  predicate KeepsPlace(s: State, t: State, i: nat) {
    && i < |s.calls| == |t.calls| && Placed(t.calls[i], t.reporter.message)
    && (t.reporter.message == s.reporter.message || (t.reporter.message == |s.chat| && s.holder == Some(i)))
    && (t.reporter.lastText.Some? ==> LastIs(t.log, t.reporter.message, t.reporter.lastText.value))
  }

  lemma RecordPlace(s: State, i: nat, buttons: Buttons)
    requires i < |s.calls| && Placed(s.calls[i], s.reporter.message) && InLock(s.calls[i].pc) && !PutsAside(s.calls[i].pc)
    ensures KeepsPlace(s, DeliveredBy(s, i, buttons), i)
  {
    hide Cancelling, Posted;
  }

  lemma AnswerPlace(limits: Limits, s: State, e: Event)
    requires Enabled(s, e) && e.Answer? && Fresh(s)
    ensures KeepsPlace(s, Apply(limits, s, e), e.i)
  {
    hide DeliveredBy, WaitSeconds, TooLong, LastIs;
    assert Placed(s.calls[e.i], s.reporter.message);
    RecordPlace(s, e.i, s.calls[e.i].buttons);
    RecordPlace(s, e.i, None);
  }

  lemma RespondPlace(s: State, i: nat, sent: bool)
    requires i < |s.calls| && Fresh(s) && s.holder == Some(i) && s.calls[i].target < |s.chat|
    requires InLock(s.calls[i].pc) && !PutsAside(s.calls[i].pc)
    ensures KeepsPlace(s, AfterRespond(s, i, sent), i)
  {
    hide Cancelling, Posted;
    assert Placed(s.calls[i], s.reporter.message);
  }

  lemma DeletePlace(s: State, i: nat, shown: bool, deleted: bool)
    requires i < |s.calls| && Fresh(s) && s.calls[i].pc.Sending? && s.calls[i].pc.phase == Delete(shown)
    requires AfterDelete(s, i, shown, deleted).calls[i].pc != Returned(Lost)
    ensures KeepsPlace(s, AfterDelete(s, i, shown, deleted), i)
  {
    hide Wiped, LastIs;
    assert Placed(s.calls[i], s.reporter.message);
  }

  lemma ResponsePlace(limits: Limits, s: State, e: Event)
    requires Enabled(s, e) && e.Response? && Fresh(s) && LockIsHeld(s) && InChat(s)
    requires Apply(limits, s, e).calls[e.i].pc != Returned(Lost)
    ensures KeepsPlace(s, Apply(limits, s, e), e.i)
  {
    hide AfterRespond, AfterDelete, WaitSeconds, Exceeds, LastIs;
    assert Placed(s.calls[e.i], s.reporter.message);
    var ok := Settled(s, e.i, e.phase, true) == Apply(limits, s, e);
    var failed := Settled(s, e.i, e.phase, false) == Apply(limits, s, e);
    if e.phase.Respond? {
      RespondPlace(s, e.i, true);
      RespondPlace(s, e.i, false);
    } else if ok {
      DeletePlace(s, e.i, e.phase.shown, true);
    } else if failed {
      DeletePlace(s, e.i, e.phase.shown, false);
    }
  }

  lemma OtherPlace(limits: Limits, s: State, e: Event)
    requires Enabled(s, e) && !e.Answer? && !e.Response? && !e.Retry? && !e.Rouse? && Fresh(s) && WipesLast(s.calls[e.i])
    ensures KeepsPlace(s, Apply(limits, s, e), e.i)
  {
    hide SameShown, Refused, ButtonsOf, OnReply, OnPlainReply, OnResponse, OnRetry, Stale, LastIs;
    assert Placed(s.calls[e.i], s.reporter.message);
  }

  lemma StepFresh(limits: Limits, s: State, e: Event)
    requires Enabled(s, e) && LockIsHeld(s) && TasksFollow(s) && ChatInv(s) && Fresh(s) && NoneLost(s)
    requires NoneLost(Apply(limits, s, e))
    ensures Fresh(Apply(limits, s, e))
  {
    hide Apply, TextsAre, LastIs;
    OthersStay(limits, s, e);
    assert WipesLast(s.calls[e.i]) && TaskFollows(s.calls[e.i]);
    if e.Answer? {
      AnswerPlace(limits, s, e);
    } else if e.Response? {
      ResponsePlace(limits, s, e);
    } else {
      OtherPlace(limits, s, e);
    }
    var t := Apply(limits, s, e);
    forall i | 0 <= i < |t.calls| && i != e.i ensures Placed(t.calls[i], t.reporter.message) {
      assert t.calls[i] == s.calls[i] && Placed(s.calls[i], s.reporter.message);
    }
  }

  lemma NoneLostBefore(limits: Limits, s: State, e: Event)
    requires Enabled(s, e) && NoneLost(Apply(limits, s, e))
    ensures NoneLost(s)
  {
    hide Apply;
    OthersStay(limits, s, e);
    MoverStaysLost(limits, s, e);
    var t := Apply(limits, s, e);
    forall i | 0 <= i < |s.calls| ensures s.calls[i].pc != Returned(Lost) {
      assert i != e.i ==> t.calls[i] == s.calls[i];
    }
  }

  lemma {:induction false} RunFresh(limits: Limits, requests: seq<Request>, editable: bool, es: seq<Event>, t: State)
    requires Runs(limits, Init(requests, editable), es, t) && NoneLost(t)
    ensures Fresh(t)
    decreases |es|
  {
    hide Apply, ChatInv, Inv, LatchFirst, Numbered, TasksFollow, NoneLost, LockIsHeld;
    if es != [] {
      var u, e := es[..|es| - 1], es[|es| - 1];
      var mid :| Runs(limits, Init(requests, editable), u, mid) && Enabled(mid, e) && t == Apply(limits, mid, e);
      NoneLostBefore(limits, mid, e);
      RunFresh(limits, requests, editable, u, mid);
      RunChat(limits, requests, editable, u, mid);
      RunInv(limits, requests, editable, u, mid);
      InvGives(mid);
      StepFresh(limits, mid, e);
    }
  }

  /** As long as no terminal text was lost, an update skipped as "the same" is right to be. */
  lemma SameIsTrueUnlessLost(limits: Limits, requests: seq<Request>, editable: bool, es: seq<Event>, t: State, i: nat)
    requires Runs(limits, Init(requests, editable), es, t) && ReturnsSame(limits, t, i)
    requires forall j :: 0 <= j < |t.calls| ==> t.calls[j].pc != Returned(Lost)
    ensures i < |t.calls| && Visible(t, t.calls[i].req.text)
  {
    hide Runs, ReturnsSame;
    SameMeans(limits, t, i);
    SameIsTrueIff(limits, requests, editable, es, t, i);
    RunFresh(limits, requests, editable, es, t);
  }

  // ------------------------------------------------------------ before a terminal text got through

  /** Until then there is one message, no retry has shown its call's text, and none was cancelled. */
  ghost predicate EarlyInv(s: State) {
    && (forall k :: 0 <= k < |s.log| && s.log[k].number == 0 ==> s.log[k].terminal)
    && (!s.reporter.delivered ==>
      && |s.chat| == 1 && s.cancelled == {} && forall k :: 0 <= k < |s.log| && s.log[k].terminal ==> s.log[k].number == 0)
  }

  lemma EarlyMoves(limits: Limits, s: State, e: Event)
    requires Enabled(s, e) && LatchFirst(s) && EarlyInv(s)
    ensures var t := Apply(limits, s, e);
            && (s.reporter.delivered ==> t.reporter.delivered)
            && (!t.reporter.delivered ==> t.cancelled == s.cancelled && (Shows(s, e) ==> !s.calls[e.i].req.terminal && !e.Response?))
  {
    hide SameShown, Refused, ButtonsOf, OnRetry, Stale, Posted, Wiped, ShownBy, TooLong, WaitSeconds, Exceeds;
    if e.Retry? {
      RetryTells(s, e.i, e.route, e.ok);
    }
  }

  lemma RetryTells(s: State, i: nat, route: Route, ok: bool)
    requires i < |s.calls|
    ensures var t := OnRetry(s, i, route, ok);
            && (s.reporter.delivered ==> t.reporter.delivered)
            && (ok && Carries(route) && i !in s.cancelled ==> t.reporter.delivered)
            && (!(ok && Carries(route)) ==> t.cancelled == s.cancelled)
            && (i in s.cancelled ==> t.cancelled == s.cancelled)
  {
    hide Effect, NextTask;
    EffectCalls(s, s.calls[i], route);
  }

  lemma StepEarly(limits: Limits, s: State, e: Event)
    requires Enabled(s, e) && TasksFollow(s) && LatchFirst(s) && Numbered(s) && ChatInv(s) && EarlyInv(s)
    ensures EarlyInv(Apply(limits, s, e))
  {
    hide Apply, MoveOf, Follows, TextsAre, InChat, WipesLast;
    assert WipesLast(s.calls[e.i]) && TaskFollows(s.calls[e.i]);
    EarlyMoves(limits, s, e);
    LogGrows(limits, s, e);
    assert Shows(s, e) ==> s.calls[e.i].number >= 1;
    if !Apply(limits, s, e).reporter.delivered {
      NoNewMessage(limits, s, e);
    }
  }

  lemma NoNewMessage(limits: Limits, s: State, e: Event)
    requires Enabled(s, e) && TasksFollow(s) && LatchFirst(s) && ChatInv(s) && EarlyInv(s)
    requires !Apply(limits, s, e).reporter.delivered && !s.reporter.delivered
    ensures |Apply(limits, s, e).chat| == 1
  {
    hide Apply, Follows, TextsAre;
    assert WipesLast(s.calls[e.i]) && TaskFollows(s.calls[e.i]);
    EarlyMoves(limits, s, e);
    ChatMoves(limits, s, e);
    ChatIsMoved(s, Apply(limits, s, e), e.i, MoveOf(s, e));
    assert e.Retry? ==> OnlyTerminal(s.calls[e.i]);
  }

  lemma {:induction false} RunEarly(limits: Limits, requests: seq<Request>, editable: bool, es: seq<Event>, t: State)
    requires Runs(limits, Init(requests, editable), es, t)
    ensures EarlyInv(t)
    decreases |es|
  {
    hide Apply, ChatInv, Inv, LatchFirst, Numbered, TasksFollow;
    if es != [] {
      var u, e := es[..|es| - 1], es[|es| - 1];
      var mid :| Runs(limits, Init(requests, editable), u, mid) && Enabled(mid, e) && t == Apply(limits, mid, e);
      RunEarly(limits, requests, editable, u, mid);
      RunChat(limits, requests, editable, u, mid);
      RunInv(limits, requests, editable, u, mid);
      InvGives(mid);
      StepEarly(limits, mid, e);
    }
  }

  /** No retry overwrote the message with the general text. */
  ghost predicate NotBlamed(log: seq<Shown>) { forall k :: 0 <= k < |log| ==> log[k].number != 0 }

  /** As long as no terminal text got through: an update skipped as "the same" is right to be
      exactly when no call that lost its text deleted the message, itself or by its retry, and no
      retry overwrote it with the general text (unless that is the text in question). */
  lemma SameBeforeDelivery(limits: Limits, requests: seq<Request>, editable: bool, es: seq<Event>, t: State, i: nat)
    requires Runs(limits, Init(requests, editable), es, t) && ReturnsSame(limits, t, i) && !t.reporter.delivered
    ensures i < |t.calls|
    ensures Visible(t, t.calls[i].req.text) <==>
              && (forall j :: 0 <= j < |t.calls| ==> !t.calls[j].wiped)
              && (NotBlamed(t.log) || t.calls[i].req.text == FAILED_TEXT)
  {
    hide Runs, ReturnsSame, Newest, Inv, ChatInv, RecordInv, LatchFirst, Numbered, TasksFollow, Visible, NotBlamed, Deleted;
    SameIsTrueIff(limits, requests, editable, es, t, i);
    RunRecord(limits, requests, editable, es, t);
    RunEarly(limits, requests, editable, es, t);
    RunChat(limits, requests, editable, es, t);
    RunInv(limits, requests, editable, es, t);
    InvGives(t);
    OnlyMessage(t);
    EarlyNewest(t, t.calls[i].req.text);
  }

  lemma OnlyMessage(t: State)
    requires ChatInv(t) && EarlyInv(t) && !t.reporter.delivered
    ensures t.reporter.message == 0 && forall k :: 0 <= k < |t.log| ==> t.log[k].at == 0
    ensures Deleted(t.calls, 0) <==> exists j :: 0 <= j < |t.calls| && t.calls[j].wiped
  {
    if j :| 0 <= j < |t.calls| && t.calls[j].wiped {
      assert t.calls[j].target == 0;
    }
  }

  lemma EarlyNewest(t: State, text: string)
    requires RecordInv(t) && EarlyInv(t) && Numbered(t) && !t.reporter.delivered && TerminalLast(t.log)
    requires t.reporter.lastText == Some(text) && forall k :: 0 <= k < |t.log| ==> t.log[k].at == 0
    ensures Newest(t.log, 0) == text <==> NotBlamed(t.log) || text == FAILED_TEXT
  {
    var k: nat :| OnRecordAt(t, k);
    var n := |t.log| - 1;
    if n > k {
      assert ByRetry(t, t.log[n]);
      var j :| 0 <= j < |t.calls| && ShownLate(t.calls[j], t.log[n]);
      assert t.log[n].number == 0 && t.log[n].text == FAILED_TEXT;
    } else {
      assert !t.log[k].terminal;
      assert NotBlamed(t.log);
    }
  }
}

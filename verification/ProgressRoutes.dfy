/** Which requests a background retry sends (telegram/progress.py, `_deferred_terminal_retry`). */
module ProgressRoutes {
  import opened Common
  import opened Progress
  import opened ProgressRetries

  /** A request and whether it worked. */
  datatype Try = Try(route: Route, ok: bool)

  /** The requests among the events, with their replies. */
  ghost function Tries(es: seq<Event>): seq<Try> {
    if es == [] then []
    else
      var e := es[|es| - 1];
      Tries(es[..|es| - 1]) + if e.Retry? then [Try(e.route, e.ok)] else []
  }

  // ------------------------------------------------------------ the order of the requests

  /** Past the reporter's own means: through the client, and if that fails once more as a message. */
  predicate LastMeans(tries: seq<Try>) {
    && tries != [] && tries[0].route == ByClient
    && if tries[0].ok then |tries| == 1 else |tries| == 2 && tries[1].route == ByLast
  }

  /** The old message goes; if it cannot, the general text is put in. Then the last means. */
  predicate ClearsAway(tries: seq<Try>) {
    && tries != [] && tries[0].route == WipeStale
    && if tries[0].ok then LastMeans(tries[1..])
       else |tries| > 1 && tries[1].route == Blame && LastMeans(tries[2..])
  }

  /** The text as a new message. If that works, the old message goes. */
  predicate AsMessage(wiped: bool, tries: seq<Try>) {
    && tries != [] && tries[0].route == ByMessage
    && if tries[0].ok then (if wiped then |tries| == 1 else |tries| == 2 && tries[1].route == Tidy)
       else if wiped then LastMeans(tries[1..]) else ClearsAway(tries[1..])
  }

  /** All the requests of a retry. `wiped`: the old message was deleted before. */
  predicate WholeRetry(failure: bool, wiped: bool, tries: seq<Try>) {
    if !failure then |tries| == 1 && tries[0].route == Tidy
    else if wiped then AsMessage(true, tries)
    else
      && tries != [] && tries[0].route == ByEdit
      && if tries[0].ok then |tries| == 2 && tries[1].route == Tidy else AsMessage(false, tries[1..])
  }

  /** What can still come when a retry is at `task`. */
  predicate Remains(failure: bool, wiped: bool, task: Task, rest: seq<Try>) {
    match task
    case Asleep => WholeRetry(failure, wiped, rest)
    case Over => rest == []
    case NoTask => false
    case Asking(route) =>
      match route
      case ByEdit => failure && !wiped && WholeRetry(true, false, rest)
      case ByMessage => AsMessage(wiped, rest)
      case Tidy => |rest| == 1 && rest[0].route == Tidy
      case WipeStale => ClearsAway(rest)
      case Blame => rest != [] && rest[0].route == Blame && LastMeans(rest[1..])
      case ByClient => LastMeans(rest)
      case ByLast => |rest| == 1 && rest[0].route == ByLast
  }

  /** Whatever completes the requests from here on completes the whole. */
  ghost predicate OnCourse(failure: bool, wiped: bool, task: Task, tries: seq<Try>) {
    forall rest :: Remains(failure, wiped, task, rest) ==> WholeRetry(failure, wiped, tries + rest)
  }

  lemma NextRemains(c: Call, wiped: bool, route: Route, ok: bool, rest: seq<Try>)
    requires route.ByEdit? ==> c.req.isFailure && !wiped
    requires route.ByMessage? ==> c.wiped == wiped
    requires Remains(c.req.isFailure, wiped, NextTask(c, route, ok), rest)
    ensures Remains(c.req.isFailure, wiped, Asking(route), [Try(route, ok)] + rest)
  {
    assert ([Try(route, ok)] + rest)[1..] == rest;
    if route.WipeStale? && !ok {
      assert ([Try(route, ok)] + rest)[2..] == rest[1..];
    }
  }

  lemma StepOnCourse(c: Call, wiped: bool, route: Route, ok: bool, tries: seq<Try>)
    requires route.ByEdit? ==> c.req.isFailure && !wiped
    requires route.ByMessage? ==> c.wiped == wiped
    requires OnCourse(c.req.isFailure, wiped, Asking(route), tries)
    ensures OnCourse(c.req.isFailure, wiped, NextTask(c, route, ok), tries + [Try(route, ok)])
  {
    hide Remains, WholeRetry, NextTask;
    forall rest | Remains(c.req.isFailure, wiped, NextTask(c, route, ok), rest)
      ensures WholeRetry(c.req.isFailure, wiped, tries + [Try(route, ok)] + rest)
    {
      NextRemains(c, wiped, route, ok, rest);
      assert tries + [Try(route, ok)] + rest == tries + ([Try(route, ok)] + rest);
    }
  }

  /** An edit is only asked of a failure whose message was not deleted before. */
  predicate EditIsDue(c: Call, wiped: bool) { c.task == Asking(ByEdit) ==> c.req.isFailure && !wiped }

  lemma StepFromAsking(limits: Limits, s: State, mid: State, i: nat, x: Trail, e: Event, tries: seq<Try>)
    requires AboutToRetry(s, i) && OnTheWay(s, mid, i, x) && Enabled(mid, e) && e.i == i && e.Retry?
    requires EditIsDue(mid.calls[i], s.calls[i].wiped)
    requires OnCourse(s.calls[i].req.isFailure, s.calls[i].wiped, mid.calls[i].task, tries)
    ensures var d := Apply(limits, mid, e).calls[i];
            && EditIsDue(d, s.calls[i].wiped)
            && OnCourse(s.calls[i].req.isFailure, s.calls[i].wiped, d.task, tries + [Try(e.route, e.ok)])
  {
    hide OnCourse, Trailed, Effect, Tells, Cancelling;
    var c := mid.calls[i];
    var d := c.(wiped := c.wiped || (e.ok && (e.route.Tidy? || e.route.WipeStale?)));
    assert c.task == Asking(e.route);
    StepOnCourse(d, s.calls[i].wiped, e.route, e.ok, tries);
    EffectCalls(mid, c, e.route);
    assert Apply(limits, mid, e).calls[i].task == NextTask(d, e.route, e.ok);
  }

  lemma StepFromSleep(limits: Limits, s: State, mid: State, i: nat, x: Trail, e: Event, tries: seq<Try>)
    requires AboutToRetry(s, i) && OnTheWay(s, mid, i, x) && Enabled(mid, e) && e.i == i && e.Rouse?
    requires mid.calls[i].wiped == s.calls[i].wiped
    requires OnCourse(s.calls[i].req.isFailure, s.calls[i].wiped, mid.calls[i].task, tries)
    ensures var d := Apply(limits, mid, e).calls[i];
            && EditIsDue(d, s.calls[i].wiped) && OnCourse(s.calls[i].req.isFailure, s.calls[i].wiped, d.task, tries)
  {
    hide Trailed, WholeRetry;
    FirstIsFirst(mid.calls[i]);
  }

  lemma FirstIsFirst(c: Call)
    ensures forall rest :: Remains(c.req.isFailure, c.wiped, Asking(FirstRoute(c)), rest) ==> WholeRetry(c.req.isFailure, c.wiped, rest)
  {
  }

  lemma {:induction false} AlwaysOnCourse(limits: Limits, s: State, es: seq<Event>, u: State, i: nat)
    requires AboutToRetry(s, i) && Runs(limits, s, es, u) && Solo(es, i)
    ensures i < |u.calls| && EditIsDue(u.calls[i], s.calls[i].wiped)
    ensures OnCourse(s.calls[i].req.isFailure, s.calls[i].wiped, u.calls[i].task, Tries(es))
    decreases |es|
  {
    hide Apply, OnTheWay, OnCourse, AboutToRetry;
    SoloRun(limits, s, es, u, i);
    AreThere(s, u, i, TrailOf(es));
    if es == [] {
      StartsOnCourse(s, i);
    } else {
      var fs, e := es[..|es| - 1], es[|es| - 1];
      var mid :| Runs(limits, s, fs, mid) && Enabled(mid, e) && u == Apply(limits, mid, e);
      assert forall k :: 0 <= k < |fs| ==> fs[k] == es[k];
      SoloRun(limits, s, fs, mid, i);
      AlwaysOnCourse(limits, s, fs, mid, i);
      if e.Retry? {
        StepFromAsking(limits, s, mid, i, TrailOf(fs), e, Tries(fs));
      } else {
        AreThere(s, mid, i, TrailOf(fs));
        StepFromSleep(limits, s, mid, i, TrailOf(fs), e, Tries(fs));
        assert Tries(fs) + [] == Tries(fs);
      }
    }
  }

  lemma AreThere(s: State, u: State, i: nat, x: Trail)
    requires AboutToRetry(s, i) && OnTheWay(s, u, i, x)
    ensures i < |s.calls| && i < |u.calls| && (u.calls[i].task.Asleep? ==> u.calls[i].wiped == s.calls[i].wiped)
  {
  }

  lemma StartsOnCourse(s: State, i: nat)
    requires AboutToRetry(s, i)
    ensures EditIsDue(s.calls[i], s.calls[i].wiped)
    ensures OnCourse(s.calls[i].req.isFailure, s.calls[i].wiped, s.calls[i].task, [])
  {
    hide WholeRetry;
    assert forall rest: seq<Try> :: [] + rest == rest;
  }

  /** Left alone to its end a retry sends these requests. For a text that is no failure it only
      deletes the old message. A failure is edited into the old message, if that was not deleted
      before, and the message then deleted; if the edit fails it is sent as a new message, and the
      old one then deleted; if that fails too, the old one is deleted, or gets the general text, and
      the failure goes through the client, and if even that fails out as a message once more. */
  lemma HowARetryGoes(limits: Limits, s: State, es: seq<Event>, u: State, i: nat)
    requires AboutToRetry(s, i) && Runs(limits, s, es, u) && Solo(es, i) && i < |u.calls| && u.calls[i].task.Over?
    ensures WholeRetry(s.calls[i].req.isFailure, s.calls[i].wiped, Tries(es))
  {
    hide Runs, WholeRetry;
    AlwaysOnCourse(limits, s, es, u, i);
    assert Remains(s.calls[i].req.isFailure, s.calls[i].wiped, Over, []);
    assert Tries(es) + [] == Tries(es);
  }

  // ------------------------------------------------------------ what the reporter hears of it

  ghost predicate GotThrough(tries: seq<Try>) {
    exists t :: t in tries && t.ok && t.route in {ByEdit, ByMessage, ByClient, ByLast}
  }

  /** The reporter knows that a terminal text got through, and has the new message for its own. */
  ghost predicate Told(s: State, u: State, tries: seq<Try>) {
    && (u.reporter.delivered <==> s.reporter.delivered || GotThrough(tries))
    && u.reporter.message == (if Try(ByMessage, true) in tries then |s.chat| else s.reporter.message)
    && (u.reporter.completed <==> s.reporter.completed || GotThrough(tries))
    && u.reporter == s.reporter.(completed := u.reporter.completed, delivered := u.reporter.delivered,
                                 message := u.reporter.message, deferred := u.reporter.deferred)
  }

  lemma OneMoreTold(limits: Limits, s: State, mid: State, i: nat, x: Trail, e: Event, tries: seq<Try>)
    requires AboutToRetry(s, i) && OnTheWay(s, mid, i, x) && Enabled(mid, e) && e.i == i && (e.Retry? || e.Rouse?)
    requires Told(s, mid, tries)
    ensures Told(s, Apply(limits, mid, e), tries + if e.Retry? then [Try(e.route, e.ok)] else [])
  {
    hide ShownBy, Cancelling, NextTask, EditIsDue, GotThrough;
    if e.Retry? {
      var t := Try(e.route, e.ok);
      EffectCalls(mid, mid.calls[i], e.route);
      MoreGotThrough(tries, t);
      assert e.route.ByMessage? ==> |mid.chat| == |s.chat|;
      assert t in tries + [t] && forall u :: u in tries + [t] <==> u in tries || u == t;
    } else {
      assert tries + [] == tries;
    }
  }

  lemma MoreGotThrough(tries: seq<Try>, t: Try)
    ensures GotThrough(tries + [t]) <==> GotThrough(tries) || (t.ok && t.route in {ByEdit, ByMessage, ByClient, ByLast})
  {
    assert forall u :: u in tries + [t] <==> u in tries || u == t;
  }

  /** After a retry left alone the reporter counts a terminal text as delivered exactly when one of
      its four ways to the user worked, and a message sent by `respond` is from then on the
      reporter's own, with that text. Nothing else of the reporter's record changes. */
  lemma {:induction false} WhatARetryTells(limits: Limits, s: State, es: seq<Event>, u: State, i: nat)
    requires AboutToRetry(s, i) && Runs(limits, s, es, u) && Solo(es, i)
    ensures Told(s, u, Tries(es))
    decreases |es|
  {
    hide Apply, Enabled, AboutToRetry, OnTheWay, Told;
    if es == [] {
      NothingTold(s);
    } else {
      var fs, e := es[..|es| - 1], es[|es| - 1];
      var mid :| Runs(limits, s, fs, mid) && Enabled(mid, e) && u == Apply(limits, mid, e);
      assert forall k :: 0 <= k < |fs| ==> fs[k] == es[k];
      SoloRun(limits, s, fs, mid, i);
      WhatARetryTells(limits, s, fs, mid, i);
      OneMoreTold(limits, s, mid, i, TrailOf(fs), e, Tries(fs));
    }
  }

  lemma NothingTold(s: State)
    ensures Told(s, s, [])
  {
  }

  // ------------------------------------------------------------ and every such order occurs

  lemma FirstOfRest(c: Call, wiped: bool, route: Route, rest: seq<Try>)
    requires route.ByMessage? ==> c.wiped == wiped
    requires Remains(c.req.isFailure, wiped, Asking(route), rest)
    ensures rest != [] && rest[0].route == route
    ensures Remains(c.req.isFailure, wiped, NextTask(c, route, rest[0].ok), rest[1..])
  {
    assert |rest| > 2 ==> rest[1..][1..] == rest[2..];
  }

  /** No edit works on a message that is gone. */
  predicate EditsPossible(s: State, i: nat, tries: seq<Try>)
    requires i < |s.calls|
  {
    forall k :: 0 <= k < |tries| && tries[k].ok && (tries[k].route == ByEdit || tries[k].route == Blame) ==>
      s.calls[i].target < |s.chat| && s.chat[s.calls[i].target].Some?
  }

  lemma OneTry(limits: Limits, s: State, mid: State, i: nat, x: Trail, rest: seq<Try>) returns (e: Event)
    requires AboutToRetry(s, i) && OnTheWay(s, mid, i, x) && mid.calls[i].task.Asking? && EditsPossible(s, i, rest)
    requires Remains(s.calls[i].req.isFailure, s.calls[i].wiped, mid.calls[i].task, rest)
    ensures rest != [] && e == Retry(i, rest[0].route, rest[0].ok) && Enabled(mid, e)
    ensures Remains(s.calls[i].req.isFailure, s.calls[i].wiped, Apply(limits, mid, e).calls[i].task, rest[1..])
  {
    hide Remains, Effect, Tells, Cancelling;
    var c := mid.calls[i];
    var route := c.task.route;
    ReplyNeeded(s.calls[i].req.isFailure, s.calls[i].wiped, route, rest);
    var ok := rest[0].ok;
    var d := c.(wiped := c.wiped || (ok && (route.Tidy? || route.WipeStale?)));
    FirstOfRest(d, s.calls[i].wiped, route, rest);
    e := Retry(i, route, ok);
    EffectCalls(mid, c, route);
  }

  lemma ReplyNeeded(failure: bool, wiped: bool, route: Route, rest: seq<Try>)
    requires Remains(failure, wiped, Asking(route), rest)
    ensures rest != []
  {
  }

  lemma Extend(limits: Limits, s: State, es: seq<Event>, mid: State, e: Event) returns (next: State)
    requires Runs(limits, s, es, mid) && Enabled(mid, e)
    ensures next == Apply(limits, mid, e) && Runs(limits, s, es + [e], next)
  {
    hide Apply, Enabled;
    next := Apply(limits, mid, e);
    var longer := es + [e];
    assert longer[..|longer| - 1] == es && longer[|longer| - 1] == e;
    assert Runs(limits, s, longer[..|longer| - 1], mid) && Enabled(mid, longer[|longer| - 1]);
  }

  lemma {:induction false} CarryOn(limits: Limits, s: State, es: seq<Event>, mid: State, i: nat, rest: seq<Try>)
      returns (es': seq<Event>, u: State)
    requires AboutToRetry(s, i) && Runs(limits, s, es, mid) && Solo(es, i) && i < |mid.calls| && !mid.calls[i].task.Asleep?
    requires Remains(s.calls[i].req.isFailure, s.calls[i].wiped, mid.calls[i].task, rest) && EditsPossible(s, i, rest)
    ensures Runs(limits, s, es', u) && Solo(es', i) && i < |u.calls| && u.calls[i].task.Over? && Tries(es') == Tries(es) + rest
    decreases |rest|
  {
    hide Remains, Apply, Enabled, AboutToRetry, OnTheWay;
    SoloRun(limits, s, es, mid, i);
    AreThere(s, mid, i, TrailOf(es));
    NothingAfterOver(s.calls[i].req.isFailure, s.calls[i].wiped, mid.calls[i].task, rest);
    if mid.calls[i].task.Over? {
      es', u := es, mid;
    } else {
      var e := OneTry(limits, s, mid, i, TrailOf(es), rest);
      var next := Extend(limits, s, es, mid, e);
      SoloRun(limits, s, es + [e], next, i);
      AreThere(s, next, i, TrailOf(es + [e]));
      NotAsleep(limits, mid, e);
      assert (es + [e])[..|es|] == es;
      assert Tries(es + [e]) == Tries(es) + [Try(e.route, e.ok)];
      es', u := CarryOn(limits, s, es + [e], next, i, rest[1..]);
      assert [Try(e.route, e.ok)] + rest[1..] == rest;
    }
  }

  lemma NothingAfterOver(failure: bool, wiped: bool, task: Task, rest: seq<Try>)
    requires Remains(failure, wiped, task, rest)
    ensures task.Over? ==> rest == []
    ensures task.Over? || task.Asking? || task.Asleep?
  {
  }

  lemma NotAsleep(limits: Limits, s: State, e: Event)
    requires Enabled(s, e) && e.Retry?
    ensures e.i < |Apply(limits, s, e).calls| && !Apply(limits, s, e).calls[e.i].task.Asleep?
  {
    hide Effect, Tells, Cancelling;
    EffectCalls(s, s.calls[e.i], e.route);
  }

  /** Each of these orders is that of some run. */
  lemma EveryRetryOccurs(limits: Limits, s: State, i: nat, tries: seq<Try>) returns (es: seq<Event>, u: State)
    requires AboutToRetry(s, i) && WholeRetry(s.calls[i].req.isFailure, s.calls[i].wiped, tries) && EditsPossible(s, i, tries)
    ensures Runs(limits, s, es, u) && Solo(es, i) && i < |u.calls| && u.calls[i].task.Over? && Tries(es) == tries
  {
    hide WholeRetry;
    NoSteps(limits, s);
    assert [] + [Rouse(i)] == [Rouse(i)];
    u := Extend(limits, s, [], s, Rouse(i));
    FirstRemains(s.calls[i], tries);
    assert [Rouse(i)][..0] == [];
    assert Tries([Rouse(i)]) == [];
    es, u := CarryOn(limits, s, [Rouse(i)], u, i, tries);
    assert [] + tries == tries;
  }

  lemma FirstRemains(c: Call, tries: seq<Try>)
    requires WholeRetry(c.req.isFailure, c.wiped, tries)
    ensures Remains(c.req.isFailure, c.wiped, Asking(FirstRoute(c)), tries)
  {
  }
}

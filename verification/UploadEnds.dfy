/** How a parallel upload ends (telegram/parallel_upload.py): which answers make a lane raise,
    when the call returns normally, and that the cost bound of one part is reached. */
module UploadEnds {
  import opened Common
  import opened ParallelUpload

  // ------------------------------------------------------------ what makes a lane raise

  /** Floods answered to lane `l` since its last part was read, or since that part went over
      to the main link. */
  ghost function FloodsOfTry(es: seq<Event>, l: nat): nat {
    if es == [] then 0
    else
      var u, e := es[..|es| - 1], es[|es| - 1];
      if e.lane != l then FloodsOfTry(u, l)
      else if e.ReadDone? || e.Fail? then 0
      else FloodsOfTry(u, l) + if e.Flood? then 1 else 0
  }

  /** After the events `u`, `e` ends the upload: the part cannot be read; a link other than the
      first failed for the second time in its lane, or the first link failed; or the server asks
      for more than 120 seconds, or for the seventh time for one part on one link. */
  ghost predicate Fatal(job: Job, u: seq<Event>, e: Event)
    requires job.links > 0
  {
    match e
    case ReadFails(_) => true
    case Fail(l) => l % job.links == 0 || Fail(l) in u
    case Flood(l, seconds) => seconds > 120 || FloodsOfTry(u, l) >= 6
    case _ => false
  }

  ghost predicate FatalAt(job: Job, es: seq<Event>, k: nat)
    requires job.links > 0
  {
    k < |es| && Fatal(job, es[..k], es[k])
  }

  ghost predicate FatalFor(job: Job, es: seq<Event>, l: nat)
    requires job.links > 0
  {
    exists k: nat :: FatalAt(job, es, k) && es[k].lane == l
  }

  /** What the events say about a lane. */
  ghost predicate Remembers(job: Job, es: seq<Event>, l: nat, lane: Lane)
    requires job.links > 0
  {
    && (lane.onMain <==> l % job.links == 0 || Fail(l) in es)
    && (lane.pc.Calling? || lane.pc.Sleeping? ==> lane.pc.attempts == FloodsOfTry(es, l))
    && (lane.pc.Raised? <==> FatalFor(job, es, l))
  }

  lemma FatalNext(job: Job, u: seq<Event>, e: Event, l: nat)
    requires job.links > 0
    ensures FatalFor(job, u + [e], l) <==> FatalFor(job, u, l) || (e.lane == l && Fatal(job, u, e))
  {
    hide Fatal;
    var es := u + [e];
    assert es[..|u|] == u;
    if k: nat :| FatalAt(job, u, k) && u[k].lane == l {
      assert es[..k] == u[..k];
      assert FatalAt(job, es, k) && es[k].lane == l;
    }
    if e.lane == l && Fatal(job, u, e) {
      assert FatalAt(job, es, |u|);
    }
    if k: nat :| FatalAt(job, es, k) && es[k].lane == l {
      if k < |u| {
        assert es[..k] == u[..k];
        assert FatalAt(job, u, k);
      }
    }
  }

  lemma FloodsNext(u: seq<Event>, e: Event, l: nat)
    ensures FloodsOfTry(u + [e], l) == if e.lane != l then FloodsOfTry(u, l)
                                       else if e.ReadDone? || e.Fail? then 0
                                       else FloodsOfTry(u, l) + if e.Flood? then 1 else 0
  {
    assert (u + [e])[..|u|] == u;
  }

  /** The one step, as far as raising goes. */
  lemma StepRemembers(job: Job, u: seq<Event>, s: State, e: Event)
    requires job.links > 0 && Enabled(s, e) && Remembers(job, u, e.lane, s.lanes[e.lane])
    ensures Remembers(job, u + [e], e.lane, Apply(job, s, e).lanes[e.lane])
  {
    hide Degraded, Bump, HeldBy, FloodsOfTry, FatalFor;
    FatalNext(job, u, e, e.lane);
    FloodsNext(u, e, e.lane);
    match e
    case Flood(_, _) =>
    case Fail(_) =>
    case _ =>
  }

  lemma OthersRemember(job: Job, u: seq<Event>, e: Event, l: nat, lane: Lane)
    requires job.links > 0 && l != e.lane && Remembers(job, u, l, lane)
    ensures Remembers(job, u + [e], l, lane)
  {
    hide FloodsOfTry, FatalFor, Fatal;
    FatalNext(job, u, e, l);
    FloodsNext(u, e, l);
  }

  lemma {:induction false} RunRemembers(job: Job, es: seq<Event>, t: State)
    requires job.Valid() && Runs(job, Init(job), es, t)
    ensures |t.lanes| == job.workers && forall l: nat :: l < |t.lanes| ==> Remembers(job, es, l, t.lanes[l])
    decreases |es|
  {
    hide Apply, Enabled, Remembers;
    if es == [] {
      forall l: nat | l < |t.lanes| ensures Remembers(job, es, l, t.lanes[l]) {
        NothingFatalYet(job, l);
      }
    } else {
      var u, e := es[..|es| - 1], es[|es| - 1];
      var mid :| Runs(job, Init(job), u, mid) && Enabled(mid, e) && t == Apply(job, mid, e);
      assert es == u + [e];
      RunRemembers(job, u, mid);
      InLanes(mid, e);
      StepMoves(job, mid, e);
      StepRemembers(job, u, mid, e);
      forall l: nat | l < |t.lanes| && l != e.lane ensures Remembers(job, es, l, t.lanes[l]) {
        OthersRemember(job, u, e, l, mid.lanes[l]);
      }
    }
  }

  lemma NothingFatalYet(job: Job, l: nat)
    requires job.Valid() && l < job.workers
    ensures Remembers(job, [], l, Init(job).lanes[l])
  {
  }

  /** Over every run: a lane has raised exactly when the events hold a read error, a failure on
      the main link, a flood of more than 120 seconds, or a seventh flood for one part on one link. */
  lemma WhoRaises(job: Job, es: seq<Event>, t: State, l: nat)
    requires job.Valid() && Runs(job, Init(job), es, t) && l < |t.lanes|
    ensures t.lanes[l].pc.Raised? <==> FatalFor(job, es, l)
  {
    hide Runs, FatalFor;
    RunRemembers(job, es, t);
    assert Remembers(job, es, l, t.lanes[l]);
  }

  /** Any other flood is slept out for the time asked for, at least a second, and any other
      failure is on an extra link; the part then goes out again, on the main link after a failure. */
  lemma OtherErrorsAreOvercome(job: Job, es: seq<Event>, s: State, e: Event)
    requires job.Valid() && Runs(job, Init(job), es, s) && Enabled(s, e) && (e.Flood? || e.Fail?) && !Fatal(job, es, e)
    ensures var t, old', new' := Apply(job, s, e), s.lanes[e.lane].pc, Apply(job, s, e).lanes[e.lane].pc;
            && (e.Fail? ==> new' == Calling(old'.index, old'.data, true, 0) && t.lanes[e.lane].onMain)
            && (e.Flood? ==>
                  && new'.Sleeping? && new'.index == old'.index && new'.data == old'.data && new'.second == old'.second
                  && t.lanes[e.lane].onMain == s.lanes[e.lane].onMain
                  && old'.index < |s.slept| == |t.slept|
                  && t.slept[old'.index] == s.slept[old'.index] + (if e.seconds == 0 then 1 else e.seconds)
                  && Enabled(t, Wake(e.lane))
                  && Apply(job, t, Wake(e.lane)).lanes[e.lane]
                     == s.lanes[e.lane].(pc := Calling(old'.index, old'.data, old'.second, new'.attempts)))
  {
    hide Runs, Degraded, FloodsOfTry, FatalFor;
    RunRemembers(job, es, s);
    assert Remembers(job, es, e.lane, s.lanes[e.lane]);
    RunCosts(job, es, s);
    RunInv(job, es, s);
    assert Held(s)[e.lane] == HeldBy(s.lanes[e.lane].pc);
  }

  // ------------------------------------------------------------ who takes parts

  ghost function FloodCount(es: seq<Event>): nat {
    if es == [] then 0 else FloodCount(es[..|es| - 1]) + if es[|es| - 1].Flood? then 1 else 0
  }

  lemma {:induction false} FloodsAreCounted(job: Job, es: seq<Event>, t: State)
    requires job.Valid() && Runs(job, Init(job), es, t)
    ensures t.floods == FloodCount(es)
    decreases |es|
  {
    hide Apply, Enabled;
    if es != [] {
      var u, e := es[..|es| - 1], es[|es| - 1];
      var mid :| Runs(job, Init(job), u, mid) && Enabled(mid, e) && t == Apply(job, mid, e);
      FloodsAreCounted(job, u, mid);
      LimitMoves(job, mid, e);
    }
  }

  /** Lanes at the head of their loop take the first queued part, unless the queue is empty or
      they are above what the floods of the whole call leave: every lane up to the first flood,
      two from the second flood on, one from the fourth. */
  lemma WhoTakesParts(job: Job, es: seq<Event>, s: State, l: nat)
    requires job.Valid() && Runs(job, Init(job), es, s) && Enabled(s, Next(l))
    ensures var t, n := Apply(job, s, Next(l)), FloodCount(es);
            var goesOn := s.pending != [] && (l == 0 || n < 2 || (n < 4 && l == 1));
            && t.lanes[l].pc == (if goesOn then Reading(s.pending[0]) else Finished)
            && t.pending == if goesOn then s.pending[1..] else s.pending
  {
    hide Runs;
    LaneLimit(job, es, s);
    FloodsAreCounted(job, es, s);
  }

  // ------------------------------------------------------------ how runs end

  ghost predicate SomeRaised(s: State) { exists l :: 0 <= l < |s.lanes| && s.lanes[l].pc.Raised? }

  ghost predicate SomeCancelled(s: State) { exists l :: 0 <= l < |s.lanes| && s.lanes[l].pc.Cancelled? }

  /** Lanes are cancelled because one raised or the call was interrupted, and an interrupted
      call has a cancelled lane. */
  ghost predicate CancelledForAReason(s: State) {
    && (SomeCancelled(s) ==> SomeRaised(s) || s.cancelled)
    && (s.cancelled ==> SomeCancelled(s))
  }

  lemma StepKeepsReason(job: Job, s: State, e: Event)
    requires Enabled(s, e) && CancelledForAReason(s)
    ensures CancelledForAReason(Apply(job, s, e))
  {
    hide Degraded, Bump;
    var t := Apply(job, s, e);
    if l :| 0 <= l < |s.lanes| && s.lanes[l].pc.Cancelled? {
      assert t.lanes[l].pc.Cancelled?;
    }
    if m :| 0 <= m < |s.lanes| && s.lanes[m].pc.Raised? {
      assert t.lanes[m].pc.Raised?;
    }
    if e.Interrupt? {
      assert t.lanes[e.lane].pc.Cancelled?;
    }
  }

  lemma {:induction false} AlwaysAReason(job: Job, es: seq<Event>, t: State)
    requires job.Valid() && Runs(job, Init(job), es, t)
    ensures CancelledForAReason(t)
    decreases |es|
  {
    hide Apply, Enabled, CancelledForAReason;
    if es == [] {
      NoReasonYet(job);
    } else {
      var u, e := es[..|es| - 1], es[|es| - 1];
      var mid :| Runs(job, Init(job), u, mid) && Enabled(mid, e) && t == Apply(job, mid, e);
      AlwaysAReason(job, u, mid);
      StepKeepsReason(job, mid, e);
    }
  }

  lemma NoReasonYet(job: Job)
    requires job.Valid()
    ensures CancelledForAReason(Init(job))
  {
  }

  ghost predicate Interrupted(es: seq<Event>) { exists k :: 0 <= k < |es| && es[k].Interrupt? }

  lemma {:induction false} WhoIsInterrupted(job: Job, es: seq<Event>, t: State)
    requires job.Valid() && Runs(job, Init(job), es, t)
    ensures t.cancelled <==> Interrupted(es)
    decreases |es|
  {
    hide Apply, Enabled;
    if es != [] {
      var u, e := es[..|es| - 1], es[|es| - 1];
      var mid :| Runs(job, Init(job), u, mid) && Enabled(mid, e) && t == Apply(job, mid, e);
      WhoIsInterrupted(job, u, mid);
      InterruptCancels(job, mid, e);
      assert es == u + [e];
      assert Interrupted(es) <==> Interrupted(u) || e.Interrupt? by {
        if Interrupted(u) {
          var k :| 0 <= k < |u| && u[k].Interrupt?;
          assert es[k].Interrupt?;
        }
        if e.Interrupt? {
          assert es[|u|].Interrupt?;
        }
      }
    }
  }

  lemma InterruptCancels(job: Job, s: State, e: Event)
    requires Enabled(s, e)
    ensures Apply(job, s, e).cancelled == (s.cancelled || e.Interrupt?)
  {
    hide Degraded, Bump, HeldBy;
  }

  /** Something among the events ends the upload. */
  ghost predicate SomeFatal(job: Job, es: seq<Event>)
    requires job.links > 0
  {
    exists k: nat :: FatalAt(job, es, k)
  }

  lemma RaisedIsFatal(job: Job, es: seq<Event>, t: State)
    requires job.Valid() && Runs(job, Init(job), es, t)
    ensures SomeRaised(t) <==> SomeFatal(job, es)
  {
    hide Runs, FatalAt;
    RunRemembers(job, es, t);
    LanesOfEvents(job, es, t);
    if l :| 0 <= l < |t.lanes| && t.lanes[l].pc.Raised? {
      assert Remembers(job, es, l, t.lanes[l]);
    }
    if k: nat :| FatalAt(job, es, k) {
      assert k < |es| by { FatalIsIn(job, es, k); }
      assert FatalFor(job, es, es[k].lane) && Remembers(job, es, es[k].lane, t.lanes[es[k].lane]);
    }
  }

  /** A lane that still goes may be cancelled exactly when something fatal happened or the call was
      interrupted; and what may happen to a lane at the server is any answer to its call. */
  lemma WhoIsCancelled(job: Job, es: seq<Event>, s: State, l: nat, seconds: nat)
    requires job.Valid() && Runs(job, Init(job), es, s) && l < |s.lanes|
    ensures Enabled(s, Cancel(l)) <==> !Stopped(s.lanes[l].pc) && (SomeFatal(job, es) || Interrupted(es))
    ensures (Enabled(s, Accept(l)) <==> Enabled(s, Fail(l))) && (Enabled(s, Accept(l)) <==> Enabled(s, Flood(l, seconds)))
    ensures Enabled(s, ReadDone(l)) <==> Enabled(s, ReadFails(l))
    ensures Enabled(s, Interrupt(l)) <==> !Stopped(s.lanes[l].pc)
    ensures !Stopped(s.lanes[l].pc) <==>
              Enabled(s, Next(l)) || Enabled(s, ReadDone(l)) || Enabled(s, Accept(l)) || Enabled(s, Wake(l)) || Enabled(s, Reported(l))
  {
    hide Runs, SomeFatal, Interrupted;
    WhoIsInterrupted(job, es, s);
    RaisedIsFatal(job, es, s);
  }

  lemma FatalIsIn(job: Job, es: seq<Event>, k: nat)
    requires job.links > 0 && FatalAt(job, es, k)
    ensures k < |es|
  {
  }

  lemma {:induction false} LanesOfEvents(job: Job, es: seq<Event>, t: State)
    requires job.Valid() && Runs(job, Init(job), es, t)
    ensures forall k :: 0 <= k < |es| ==> es[k].lane < |t.lanes|
    decreases |es|
  {
    hide Apply;
    if es != [] {
      var u, e := es[..|es| - 1], es[|es| - 1];
      var mid :| Runs(job, Init(job), u, mid) && Enabled(mid, e) && t == Apply(job, mid, e);
      LanesOfEvents(job, u, mid);
      StepMoves(job, mid, e);
      assert forall k :: 0 <= k < |u| ==> u[k] == es[k];
    }
  }

  /** What the lanes of a call say about its events. */
  lemma CallEnds(job: Job, es: seq<Event>, t: State)
    requires job.Valid() && Runs(job, Init(job), es, t)
    ensures |t.lanes| == job.workers && forall l: nat :: l < job.workers ==> (t.lanes[l].pc.Raised? <==> FatalFor(job, es, l))
    ensures ReturnsNormally(t) ==> !SomeFatal(job, es) && !Interrupted(es)
    ensures (forall l :: 0 <= l < |t.lanes| ==> Stopped(t.lanes[l].pc)) && !SomeFatal(job, es) && !Interrupted(es) ==> ReturnsNormally(t)
  {
    hide Runs, SomeFatal, Interrupted, FatalFor;
    RunRemembers(job, es, t);
    forall l: nat | l < job.workers ensures t.lanes[l].pc.Raised? <==> FatalFor(job, es, l) {
      WhoRaises(job, es, t, l);
    }
    AlwaysAReason(job, es, t);
    RaisedIsFatal(job, es, t);
    WhoIsInterrupted(job, es, t);
  }

  /** A run stops only when every lane stopped. Then the call returns normally exactly when the
      events hold no read error, no failure of the main link, no flood of more than 120 seconds
      and no seventh one for a part on one link, and nobody cancelled the call from outside. */
  lemma HowRunsEnd(job: Job, es: seq<Event>, t: State)
    requires job.Valid() && Runs(job, Init(job), es, t)
    requires forall e :: !Enabled(t, e)
    ensures forall l :: 0 <= l < |t.lanes| ==> Stopped(t.lanes[l].pc)
    ensures ReturnsNormally(t) <==> !SomeFatal(job, es) && !Interrupted(es)
  {
    hide Runs, SomeFatal, Interrupted;
    forall l | 0 <= l < |t.lanes|
      ensures Stopped(t.lanes[l].pc)
    {
      assert !Enabled(t, Next(l)) && !Enabled(t, ReadDone(l)) && !Enabled(t, Accept(l));
      assert !Enabled(t, Wake(l)) && !Enabled(t, Reported(l));
    }
    CallEnds(job, es, t);
  }

  // ------------------------------------------------------------ the bound is reached

  lemma Extend(job: Job, s: State, es: seq<Event>, t: State, e: Event) returns (u: State)
    requires Runs(job, s, es, t) && Enabled(t, e)
    ensures u == Apply(job, t, e) && Runs(job, s, es + [e], u)
  {
    u := Apply(job, t, e);
    assert (es + [e])[..|es + [e]| - 1] == es;
  }

  lemma FloodOnce(job: Job, s: State, l: nat)
    requires l < |s.lanes| && s.lanes[l].pc.Calling? && s.lanes[l].pc.attempts < MAX_FLOOD_RETRIES_PER_PART
    requires var i := s.lanes[l].pc.index; i < |s.requests| && i < |s.waits| && i < |s.slept|
    ensures Enabled(s, Flood(l, MAX_FLOOD_WAIT_SECONDS))
    ensures var u := Apply(job, s, Flood(l, MAX_FLOOD_WAIT_SECONDS));
            && Enabled(u, Wake(l))
            && var t := Apply(job, u, Wake(l));
               var pc := s.lanes[l].pc;
               && |t.lanes| == |s.lanes|
               && t.lanes[l] == Lane(Calling(pc.index, pc.data, pc.second, pc.attempts + 1), s.lanes[l].onMain)
               && t.requests == s.requests[pc.index := s.requests[pc.index] + 1]
               && t.waits == s.waits[pc.index := s.waits[pc.index] + 1]
               && t.slept == s.slept[pc.index := s.slept[pc.index] + MAX_FLOOD_WAIT_SECONDS]
  {
  }

  lemma FloodRuns(job: Job, es: seq<Event>, s: State, l: nat) returns (es': seq<Event>, t: State)
    requires job.Valid() && Runs(job, Init(job), es, s)
    requires l < |s.lanes| && s.lanes[l].pc.Calling? && s.lanes[l].pc.attempts < MAX_FLOOD_RETRIES_PER_PART
    requires var i := s.lanes[l].pc.index; i < |s.requests| && i < |s.waits| && i < |s.slept|
    ensures Runs(job, Init(job), es', t)
    ensures var pc := s.lanes[l].pc;
            && |t.lanes| == |s.lanes|
            && t.lanes[l] == Lane(Calling(pc.index, pc.data, pc.second, pc.attempts + 1), s.lanes[l].onMain)
            && t.requests == s.requests[pc.index := s.requests[pc.index] + 1]
            && t.waits == s.waits[pc.index := s.waits[pc.index] + 1]
            && t.slept == s.slept[pc.index := s.slept[pc.index] + MAX_FLOOD_WAIT_SECONDS]
  {
    FloodOnce(job, s, l);
    var u := Extend(job, Init(job), es, s, Flood(l, MAX_FLOOD_WAIT_SECONDS));
    es' := es + [Flood(l, MAX_FLOOD_WAIT_SECONDS)] + [Wake(l)];
    t := Extend(job, Init(job), es + [Flood(l, MAX_FLOOD_WAIT_SECONDS)], u, Wake(l));
  }

  /** `count` floods of 120 seconds in a row, each slept out and retried. */
  lemma {:induction false} FloodTimes(job: Job, es: seq<Event>, t: State, l: nat, count: nat) returns (es': seq<Event>, t': State)
    requires job.Valid() && Runs(job, Init(job), es, t)
    requires l < |t.lanes| && t.lanes[l].pc.Calling? && t.lanes[l].pc.attempts + count <= MAX_FLOOD_RETRIES_PER_PART
    requires var i := t.lanes[l].pc.index; i < |t.requests| && i < |t.waits| && i < |t.slept|
    ensures Runs(job, Init(job), es', t') && |t'.lanes| == |t.lanes|
    ensures var pc := t.lanes[l].pc;
            t'.lanes[l] == Lane(Calling(pc.index, pc.data, pc.second, pc.attempts + count), t.lanes[l].onMain)
    ensures |t'.requests| == |t.requests| && |t'.waits| == |t.waits| && |t'.slept| == |t.slept|
    ensures var i := t.lanes[l].pc.index;
            && t'.requests[i] == t.requests[i] + count
            && t'.waits[i] == t.waits[i] + count
            && t'.slept[i] == t.slept[i] + count * MAX_FLOOD_WAIT_SECONDS
    decreases count
  {
    hide Apply, Runs, Enabled;
    if count == 0 {
      es', t' := es, t;
    } else {
      var es1, t1 := FloodRuns(job, es, t, l);
      es', t' := FloodTimes(job, es1, t1, l, count - 1);
    }
  }

  /** Lane 1, which has a link of its own, sends part 0. */
  lemma FirstCall(job: Job) returns (es: seq<Event>, t: State)
    requires job.Valid() && job.links == 2
    ensures Runs(job, Init(job), es, t) && |t.requests| == |t.waits| == |t.slept| == job.PartCount() > 0
    ensures |t.lanes| > 1 && t.lanes[1] == Lane(Calling(0, job.Part(0), false, 0), false)
    ensures t.requests[0] == 1 && t.waits[0] == 0 && t.slept[0] == 0
  {
    PartCountBounds(job);
    t := Extend(job, Init(job), [], Init(job), Next(1));
    t := Extend(job, Init(job), [] + [Next(1)], t, ReadDone(1));
    es := [] + [Next(1)] + [ReadDone(1)];
  }

  /** The bound of `PartCost` is the best one: a file of two parts over two links has
      a run that sends one part 14 times and sleeps 1440 seconds for it. */
  lemma PartCostIsReached(job: Job) returns (es: seq<Event>, t: State)
    requires job.Valid() && job.links == 2
    ensures Runs(job, Init(job), es, t) && |t.requests| == |t.waits| == |t.slept| == job.PartCount() > 0
    ensures t.requests[0] == 14 && t.waits[0] == 12 && t.slept[0] == 12 * MAX_FLOOD_WAIT_SECONDS
    ensures 0 in t.accepted
  {
    hide Runs, Degraded;
    es, t := FirstCall(job);
    es, t := FloodTimes(job, es, t, 1, 6);
    t := Extend(job, Init(job), es, t, Fail(1));
    es, t := FloodTimes(job, es + [Fail(1)], t, 1, 6);
    t := Extend(job, Init(job), es, t, Accept(1));
    es := es + [Accept(1)];
  }
}

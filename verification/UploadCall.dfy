/** The parallel upload as the code runs it (telegram/parallel_upload.py): the shared state updated
    in place by the pieces of code between two awaits, and a whole call. */
module UploadCall {
  import opened Common
  import opened ParallelUpload
  import opened UploadEnds

  /** The shared state and the lanes of one call, updated in place by the pieces
      of code between two awaits. */
  class Uploader {
    const job: Job
    const lanes: array<Lane>
    var pending: seq<nat>
    var limit: nat
    var floods: nat
    var uploaded: nat
    ghost var stored: map<nat, seq<byte>>
    ghost var accepted: seq<nat>
    ghost var progress: seq<int>
    ghost var requests: seq<nat>
    ghost var waits: seq<nat>
    ghost var slept: seq<nat>
    var cancelled: bool

    ghost function View(): State
      reads this, lanes
    {
      State(lanes[..], pending, limit, floods, uploaded, stored, accepted, progress, requests, waits, slept, cancelled)
    }

    constructor (job: Job)
      requires job.Valid()
      ensures this.job == job && fresh(lanes) && View() == Init(job)
    {
      this.job := job;
      lanes := new Lane[job.workers](lane => Lane(LoopHead, lane % job.links == 0));
      pending := seq(job.PartCount(), i => i);
      limit := job.workers;
      floods, uploaded, cancelled := 0, 0, false;
      stored, accepted, progress := map[], [], [];
      requests := seq(job.PartCount(), _ => 0);
      waits := seq(job.PartCount(), _ => 0);
      slept := seq(job.PartCount(), _ => 0);
      new;
      assert lanes[..] == Init(job).lanes;
    }

    /** `_State.note_flood`. */
    method NoteFlood()
      modifies this`floods, this`limit
      ensures floods == old(floods) + 1
      ensures limit == Degraded(floods, old(limit), DEGRADE_AFTER)
    {
      floods := floods + 1;
      for row := 0 to |DEGRADE_AFTER|
        invariant limit == old(limit)
        invariant Degraded(floods, limit, DEGRADE_AFTER[row..]) == Degraded(floods, limit, DEGRADE_AFTER)
      {
        var (threshold, fewer) := DEGRADE_AFTER[row];
        if floods >= threshold && fewer < limit {
          limit := fewer;
          break;
        }
        assert DEGRADE_AFTER[row..][1..] == DEGRADE_AFTER[row + 1..];
      }
    }

    /** The head of the lane loop: stop, or take the next part. */
    method TakeNext(l: nat)
      requires Enabled(View(), Next(l))
      modifies this`pending, lanes
      ensures View() == Apply(job, old(View()), Next(l))
    {
      if l >= limit || |pending| == 0 {
        lanes[l] := lanes[l].(pc := Finished);
      } else {
        lanes[l] := lanes[l].(pc := Reading(pending[0]));
        pending := pending[1..];
      }
    }

    method BeginCall(l: nat)
      requires Enabled(View(), ReadDone(l))
      modifies this`requests, lanes
      ensures View() == Apply(job, old(View()), ReadDone(l))
    {
      var index := lanes[l].pc.index;
      lanes[l] := lanes[l].(pc := Calling(index, job.Part(index), false, 0));
      requests := Bump(requests, index, 1);
    }

    /** The server took the part: count it, then report. */
    method OnAccepted(l: nat)
      requires Enabled(View(), Accept(l))
      modifies this`uploaded, this`stored, this`accepted, this`progress, lanes
      ensures View() == Apply(job, old(View()), Accept(l))
    {
      var index, data := lanes[l].pc.index, lanes[l].pc.data;
      uploaded := uploaded + |data|;
      stored := stored[index := data];
      accepted := accepted + [index];
      progress := progress + [uploaded];
      lanes[l] := lanes[l].(pc := Reporting);
    }

    /** The seventh flood for a part on one link, or one of more than 120 seconds, raises; any
        other is slept out. */
    method OnFlood(l: nat, seconds: nat)
      requires Enabled(View(), Flood(l, seconds))
      modifies this`floods, this`limit, this`waits, this`slept, lanes
      ensures View() == Apply(job, old(View()), Flood(l, seconds))
      ensures var pc := old(lanes[l].pc);
              lanes[l].pc == if pc.attempts >= 6 || seconds > 120 then Raised(pc.index)
                             else Sleeping(pc.index, pc.data, pc.second, pc.attempts + 1)
    {
      var pc := lanes[l].pc;
      var attempts := pc.attempts + 1;
      NoteFlood();
      var wait := WaitSeconds(seconds);
      if attempts > MAX_FLOOD_RETRIES_PER_PART || wait > MAX_FLOOD_WAIT_SECONDS {
        lanes[l] := lanes[l].(pc := Raised(pc.index));
      } else {
        waits := Bump(waits, pc.index, 1);
        slept := Bump(slept, pc.index, wait);
        lanes[l] := lanes[l].(pc := Sleeping(pc.index, pc.data, pc.second, attempts));
      }
    }

    /** Any other error: an extra link hands its part to the main one, which raises. */
    method OnError(l: nat)
      requires Enabled(View(), Fail(l))
      modifies this`requests, lanes
      ensures View() == Apply(job, old(View()), Fail(l))
      ensures var pc := old(lanes[l].pc);
              lanes[l].pc == if old(lanes[l].onMain) then Raised(pc.index) else Calling(pc.index, pc.data, true, 0)
    {
      var pc := lanes[l].pc;
      if lanes[l].onMain {
        lanes[l] := lanes[l].(pc := Raised(pc.index));
      } else {
        lanes[l] := Lane(Calling(pc.index, pc.data, true, 0), true);
        requests := Bump(requests, pc.index, 1);
      }
    }

    method AfterSleep(l: nat)
      requires Enabled(View(), Wake(l))
      modifies this`requests, lanes
      ensures View() == Apply(job, old(View()), Wake(l))
    {
      var pc := lanes[l].pc;
      lanes[l] := lanes[l].(pc := Calling(pc.index, pc.data, pc.second, pc.attempts));
      requests := Bump(requests, pc.index, 1);
    }

    method AfterReport(l: nat)
      requires Enabled(View(), Reported(l))
      modifies lanes
      ensures View() == Apply(job, old(View()), Reported(l))
    {
      lanes[l] := lanes[l].(pc := LoopHead);
    }

    method OnCancel(l: nat)
      requires Enabled(View(), Cancel(l))
      modifies lanes
      ensures View() == Apply(job, old(View()), Cancel(l))
    {
      lanes[l] := lanes[l].(pc := Cancelled(HeldBy(lanes[l].pc)));
    }

    /** The part cannot be read from disk. */
    method OnReadError(l: nat)
      requires Enabled(View(), ReadFails(l))
      modifies lanes
      ensures View() == Apply(job, old(View()), ReadFails(l))
    {
      lanes[l] := lanes[l].(pc := Raised(lanes[l].pc.index));
    }

    /** The whole call is cancelled from outside; lane `l` is the first to notice. */
    method OnInterrupt(l: nat)
      requires Enabled(View(), Interrupt(l))
      modifies this`cancelled, lanes
      ensures View() == Apply(job, old(View()), Interrupt(l))
    {
      cancelled := true;
      lanes[l] := lanes[l].(pc := Cancelled(HeldBy(lanes[l].pc)));
    }

    method Handle(e: Event)
      requires Enabled(View(), e)
      modifies this, lanes
      ensures View() == Apply(job, old(View()), e)
    {
      match e
      case Next(l) => TakeNext(l);
      case ReadDone(l) => BeginCall(l);
      case Accept(l) => OnAccepted(l);
      case Flood(l, seconds) => OnFlood(l, seconds);
      case Fail(l) => OnError(l);
      case Wake(l) => AfterSleep(l);
      case Reported(l) => AfterReport(l);
      case Cancel(l) => OnCancel(l);
      case ReadFails(l) => OnReadError(l);
      case Interrupt(l) => OnInterrupt(l);
    }
  }

  /** Where a scheduler gets by offering the events of `schedule` in turn: those that cannot
      happen when their turn comes are passed over. */
  ghost function Reached(job: Job, schedule: seq<Event>): State
    requires job.Valid()
  {
    if schedule == [] then Init(job)
    else
      var s, e := Reached(job, schedule[..|schedule| - 1]), schedule[|schedule| - 1];
      if Enabled(s, e) then Apply(job, s, e) else s
  }

  lemma ReachedNext(job: Job, schedule: seq<Event>, k: nat)
    requires job.Valid() && k < |schedule|
    ensures var s := Reached(job, schedule[..k]);
            Reached(job, schedule[..k + 1]) == if Enabled(s, schedule[k]) then Apply(job, s, schedule[k]) else s
  {
    hide Apply, Enabled;
    assert schedule[..k + 1][..k] == schedule[..k];
  }

  /** One whole call under a scheduler that offers the events of `schedule` in turn:
      if it returns normally, the server holds the file, whatever happened on the way. A lane
      has raised exactly when one of the events that took place was fatal for it. */
  method Upload(job: Job, schedule: seq<Event>) returns (normal: bool, up: Uploader, ghost es: seq<Event>)
    requires job.Valid()
    ensures up.job == job && Runs(job, Init(job), es, up.View()) && up.View() == Reached(job, schedule)
    ensures normal == ReturnsNormally(up.View())
    ensures normal ==> up.uploaded == |job.file| && Distinct(up.accepted) && |up.accepted| == job.PartCount()
    ensures normal ==> forall i: nat :: i < job.PartCount() <==> i in up.stored
    ensures normal ==> FileAtServer(up.stored, job.PartCount()) == job.file
    ensures up.lanes.Length == job.workers && (normal ==> !SomeFatal(job, es) && !Interrupted(es))
    ensures forall l: nat :: l < job.workers ==> (up.lanes[l].pc.Raised? <==> FatalFor(job, es, l))
    ensures (forall l: nat :: l < job.workers ==> Stopped(up.lanes[l].pc)) && !SomeFatal(job, es) && !Interrupted(es) ==> normal
  {
    up := new Uploader(job);
    es := [];
    for k := 0 to |schedule|
      invariant up.job == job && fresh(up) && fresh(up.lanes) && Runs(job, Init(job), es, up.View())
      invariant up.View() == Reached(job, schedule[..k])
    {
      var e := schedule[k];
      ReachedNext(job, schedule, k);
      var enabled := e.lane < up.lanes.Length && Enabled(State(up.lanes[..], up.pending, up.limit, up.floods, up.uploaded,
        map[], [], [], [], [], [], up.cancelled), e);
      if enabled {
        ghost var before := up.View();
        up.Handle(e);
        ghost var after := Extend(job, Init(job), es, before, e);
        es := es + [e];
      }
    }
    assert schedule[..|schedule|] == schedule;
    normal := forall l :: 0 <= l < up.lanes.Length ==> up.lanes[l].pc.Finished?;
    CallEnds(job, es, up.View());
    if normal {
      NormalReturnDeliversTheFile(job, es, up.View());
    }
  }
}

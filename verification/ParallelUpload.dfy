/** The parallel upload of one file: up to five lanes pull part indices from a
    shared queue, wait out flood errors, move from a broken extra connection to
    the main one, and shrink from five lanes to two to one.

    Lanes are coroutines, so the protocol is a state machine: one event per
    piece of code that runs between two awaits, in any order the scheduler and
    the server choose. */
module ParallelUpload {
  import opened Common

  const MAX_WORKERS: nat := 5
  const MAX_FLOOD_RETRIES_PER_PART: nat := 6
  const MAX_FLOOD_WAIT_SECONDS: nat := 120
  /** Flood waits seen -> lanes allowed from then on. */
  const DEGRADE_AFTER: seq<(nat, nat)> := [(4, 1), (2, 2)]

  /** One call: the file's bytes, the part size, and how many lanes and links came up. */
  datatype Job = Job(file: seq<byte>, partSize: nat, workers: nat, links: nat) {
    ghost predicate Valid() {
      file != [] && partSize > 0 && 1 <= workers <= MAX_WORKERS && 1 <= links <= workers
    }

    function PartCount(): nat
      requires partSize > 0
    {
      (|file| + partSize - 1) / partSize
    }

    /** What reading `partSize` bytes at the part's offset returns. */
    function Part(index: nat): seq<byte> {
      file[Min(index * partSize, |file|)..Min((index + 1) * partSize, |file|)]
    }
  }

  /** Where a lane is. `second` tells the retry on the main link, after the
      extra one broke, from the first try of the same part. */
  datatype Pc =
    | LoopHead
    | Reading(index: nat)
    | Calling(index: nat, data: seq<byte>, second: bool, attempts: nat)
    | Sleeping(index: nat, data: seq<byte>, second: bool, attempts: nat)
    | Reporting
    | Finished
    | Raised(index: nat)
    | Cancelled(held: Option<nat>)

  datatype Lane = Lane(pc: Pc, onMain: bool)

  /** The shared variables, then what an observer at the server logs:
      the stored parts, the order of acceptance, every value of `uploaded`,
      and per part the requests sent, the flood waits and the seconds slept. */
  datatype State = State(
    lanes: seq<Lane>, pending: seq<nat>, limit: nat, floods: nat, uploaded: nat,
    stored: map<nat, seq<byte>>, accepted: seq<nat>, progress: seq<int>,
    requests: seq<nat>, waits: seq<nat>, slept: seq<nat>, cancelled: bool)

  datatype Event =
    | Next(lane: nat)
    | ReadDone(lane: nat)
    | ReadFails(lane: nat)
    | Accept(lane: nat)
    | Flood(lane: nat, seconds: nat)
    | Fail(lane: nat)
    | Wake(lane: nat)
    | Reported(lane: nat)
    | Cancel(lane: nat)
    | Interrupt(lane: nat)

  function Init(job: Job): (s: State)
    requires job.Valid()
  {
    var n := job.PartCount();
    State(seq(job.workers, lane => Lane(LoopHead, lane % job.links == 0)),
          seq(n, i => i), job.workers, 0, 0, map[], [], [],
          seq(n, _ => 0), seq(n, _ => 0), seq(n, _ => 0), false)
  }

  /** The part a lane has taken and not yet got accepted. */
  function HeldBy(pc: Pc): Option<nat> {
    match pc
    case Reading(i) => Some(i)
    case Calling(i, _, _, _) => Some(i)
    case Sleeping(i, _, _, _) => Some(i)
    case Raised(i) => Some(i)
    case Cancelled(held) => held
    case _ => None
  }

  predicate Stopped(pc: Pc) { pc.Finished? || pc.Raised? || pc.Cancelled? }

  predicate Enabled(s: State, e: Event) {
    e.lane < |s.lanes| &&
    var pc := s.lanes[e.lane].pc;
    match e
    case Next(_) => pc.LoopHead?
    case ReadDone(_) => pc.Reading?
    case ReadFails(_) => pc.Reading?
    case Accept(_) => pc.Calling?
    case Flood(_, _) => pc.Calling?
    case Fail(_) => pc.Calling?
    case Wake(_) => pc.Sleeping?
    case Reported(_) => pc.Reporting?
    case Cancel(_) => !Stopped(pc) && (s.cancelled || exists l :: 0 <= l < |s.lanes| && s.lanes[l].pc.Raised?)
    case Interrupt(_) => !Stopped(pc)
  }

  /** `_State.note_flood`: the first threshold reached that lowers the limit wins. */
  function Degraded(floods: nat, limit: nat, table: seq<(nat, nat)>): nat {
    if table == [] then limit
    else if floods >= table[0].0 && table[0].1 < limit then table[0].1
    else Degraded(floods, limit, table[1..])
  }

  function SetPc(s: State, lane: nat, pc: Pc): State
    requires lane < |s.lanes|
  {
    s.(lanes := s.lanes[lane := s.lanes[lane].(pc := pc)])
  }

  function Bump(counts: seq<nat>, index: nat, amount: nat): (r: seq<nat>)
    ensures |r| == |counts|
  {
    if index < |counts| then counts[index := counts[index] + amount] else counts
  }

  /** Puts one request for the lane's part on the wire. */
  function Send(s: State, lane: nat, index: nat, data: seq<byte>, second: bool, attempts: nat): State
    requires lane < |s.lanes|
  {
    SetPc(s, lane, Calling(index, data, second, attempts)).(requests := Bump(s.requests, index, 1))
  }

  function WaitSeconds(seconds: nat): nat { if seconds == 0 then 1 else seconds }

  function Apply(job: Job, s: State, e: Event): State
    requires Enabled(s, e)
  {
    var lane := s.lanes[e.lane];
    match e
    case Next(l) =>
      if l >= s.limit || s.pending == [] then SetPc(s, l, Finished)
      else SetPc(s, l, Reading(s.pending[0])).(pending := s.pending[1..])
    case ReadDone(l) =>
      Send(s, l, lane.pc.index, job.Part(lane.pc.index), false, 0)
    case ReadFails(l) => SetPc(s, l, Raised(lane.pc.index))
    case Accept(l) =>
      var i, data := lane.pc.index, lane.pc.data;
      SetPc(s, l, Reporting).(
        stored := s.stored[i := data],
        accepted := s.accepted + [i],
        uploaded := s.uploaded + |data|,
        progress := s.progress + [s.uploaded + |data|])
    case Flood(l, seconds) =>
      var i, attempts, wait := lane.pc.index, lane.pc.attempts + 1, WaitSeconds(seconds);
      var floods := s.floods + 1;
      var noted := s.(floods := floods, limit := Degraded(floods, s.limit, DEGRADE_AFTER));
      if attempts > MAX_FLOOD_RETRIES_PER_PART || wait > MAX_FLOOD_WAIT_SECONDS then
        SetPc(noted, l, Raised(i))
      else
        SetPc(noted, l, Sleeping(i, lane.pc.data, lane.pc.second, attempts)).(
          waits := Bump(s.waits, i, 1),
          slept := Bump(s.slept, i, wait))
    case Fail(l) =>
      if lane.onMain then SetPc(s, l, Raised(lane.pc.index))
      else
        Send(s.(lanes := s.lanes[l := lane.(onMain := true)]), l, lane.pc.index, lane.pc.data, true, 0)
    case Wake(l) =>
      Send(s, l, lane.pc.index, lane.pc.data, lane.pc.second, lane.pc.attempts)
    case Reported(l) => SetPc(s, l, LoopHead)
    case Cancel(l) => SetPc(s, l, Cancelled(HeldBy(lane.pc)))
    case Interrupt(l) => SetPc(s, l, Cancelled(HeldBy(lane.pc))).(cancelled := true)
  }

  /** The events `es` can happen in this order from `s`, and lead to `t`. */
  ghost predicate Runs(job: Job, s: State, es: seq<Event>, t: State)
    decreases |es|
  {
    if es == [] then s == t
    else
      var u := es[..|es| - 1];
      exists mid :: Runs(job, s, u, mid) && Enabled(mid, es[|es| - 1]) && t == Apply(job, mid, es[|es| - 1])
  }

  /** `upload_file_parallel` returns normally: every lane task ended without an exception. */
  predicate ReturnsNormally(s: State) {
    forall l :: 0 <= l < |s.lanes| ==> s.lanes[l].pc.Finished?
  }

  // ------------------------------------------------------------ tiling of the file

  /** The parts cover the file: all but the last are full, the last is not empty. */
  lemma PartCountBounds(job: Job)
    requires job.partSize > 0 && job.file != []
    ensures job.PartCount() >= 1
    ensures (job.PartCount() - 1) * job.partSize < |job.file| <= job.PartCount() * job.partSize
  {
    var n, p, f := job.PartCount(), job.partSize, |job.file|;
    assert f + p - 1 == n * p + (f + p - 1) % p;
    assert (n - 1) * p == n * p - p;
    assert n != 0;
  }

  lemma PartIsNonEmpty(job: Job, index: nat)
    requires job.Valid() && index < job.PartCount()
    ensures index * job.partSize < |job.file|
    ensures 0 < |job.Part(index)| <= job.partSize
  {
    PartCountBounds(job);
    Scaled(job.PartCount(), job.partSize, index);
  }

  lemma Scaled(n: nat, p: nat, index: nat)
    requires index < n
    ensures index * p <= (n - 1) * p && (index + 1) * p == index * p + p && (n - 1) * p == n * p - p
  {
    Grows(p, index, n - 1);
  }

  lemma Grows(p: nat, a: nat, b: nat)
    requires a <= b
    ensures a * p <= b * p
  {
    assert b * p == a * p + (b - a) * p;
  }

  ghost function Parts(job: Job): (r: seq<seq<byte>>)
    requires job.partSize > 0
  {
    seq(job.PartCount(), i requires 0 <= i < job.PartCount() => job.Part(i))
  }

  function Start(job: Job, index: nat): nat { Min(index * job.partSize, |job.file|) }

  lemma PartIsTile(job: Job, index: nat)
    requires job.Valid() && index < job.PartCount()
    ensures Start(job, index) <= Start(job, index + 1)
    ensures job.file[..Start(job, index)] + job.Part(index) == job.file[..Start(job, index + 1)]
  {
    PartIsNonEmpty(job, index);
  }

  lemma {:induction false} PartsTile(job: Job, k: nat)
    requires job.Valid() && k <= job.PartCount()
    ensures Flatten(Parts(job)[..k]) == job.file[..Start(job, k)]
  {
    if k > 0 {
      PartsTile(job, k - 1);
      assert Parts(job)[..k][..k - 1] == Parts(job)[..k - 1];
      PartIsTile(job, k - 1);
    }
  }

  /** The parts joined in index order are the file. */
  lemma PartsAreTheFile(job: Job)
    requires job.Valid()
    ensures Flatten(Parts(job)) == job.file
  {
    PartsTile(job, job.PartCount());
    PartCountBounds(job);
    assert Parts(job)[..job.PartCount()] == Parts(job);
  }

  /** Bytes of the parts in `indices`, in the order they were accepted. */
  ghost function Bytes(parts: seq<seq<byte>>, indices: seq<nat>): nat {
    if indices == [] then 0
    else
      var last := indices[|indices| - 1];
      Bytes(parts, indices[..|indices| - 1]) + if last < |parts| then |parts[last]| else 0
  }

  lemma {:induction false} BytesRemove(parts: seq<seq<byte>>, indices: seq<nat>, at: nat)
    requires at < |indices| && indices[at] < |parts|
    ensures Bytes(parts, indices) == Bytes(parts, indices[..at] + indices[at + 1..]) + |parts[indices[at]]|
  {
    hide Bytes;
    var front, x := indices[..|indices| - 1], indices[|indices| - 1];
    assert indices == front + [x];
    BytesAdd(parts, front, x);
    if at == |front| {
      assert indices[..at] + indices[at + 1..] == front;
    } else {
      BytesRemove(parts, front, at);
      var rest := front[..at] + front[at + 1..];
      assert indices[..at] + indices[at + 1..] == rest + [x];
      BytesAdd(parts, rest, x);
    }
  }

  lemma BytesAdd(parts: seq<seq<byte>>, indices: seq<nat>, x: nat)
    ensures Bytes(parts, indices + [x]) == Bytes(parts, indices) + if x < |parts| then |parts[x]| else 0
  {
    assert (indices + [x])[..|indices|] == indices;
  }

  /** Removing `k - 1` from a rearrangement of `0..k` leaves one of `0..k - 1`. */
  lemma DropLargest(indices: seq<nat>, k: nat) returns (at: nat, rest: seq<nat>)
    requires k > 0 && Distinct(indices) && forall i: nat :: i in indices <==> i < k
    ensures at < |indices| && indices[at] == k - 1 && rest == indices[..at] + indices[at + 1..]
    ensures Distinct(rest) && forall i: nat :: i in rest <==> i < k - 1
  {
    assert k - 1 in indices;
    at :| 0 <= at < |indices| && indices[at] == k - 1;
    rest := indices[..at] + indices[at + 1..];
    assert forall i :: i in rest ==> i in indices;
    forall i: nat | i < k - 1 ensures i in rest {
      assert i in indices;
      var j :| 0 <= j < |indices| && indices[j] == i;
      assert rest[if j < at then j else j - 1] == i;
    }
  }

  lemma {:induction false} BytesOfPermutation(parts: seq<seq<byte>>, indices: seq<nat>, k: nat)
    requires k <= |parts| && Distinct(indices) && forall i: nat :: i in indices <==> i < k
    ensures |indices| == k
    ensures Bytes(parts, indices) == |Flatten(parts[..k])|
  {
    if k == 0 {
      SomeMember(indices);
    } else {
      var at, rest := DropLargest(indices, k);
      BytesOfPermutation(parts, rest, k - 1);
      BytesRemove(parts, indices, at);
      assert parts[..k][..k - 1] == parts[..k - 1];
    }
  }

  /** Extends distinct indices to all of `0..k` without lowering their byte sum. */
  lemma {:induction false} FillUp(parts: seq<seq<byte>>, indices: seq<nat>, k: nat) returns (full: seq<nat>)
    requires Distinct(indices)
    ensures Distinct(full) && Bytes(parts, indices) <= Bytes(parts, full)
    ensures forall i: nat :: i in full <==> i in indices || i < k
  {
    if k == 0 {
      full := indices;
    } else {
      full := FillUp(parts, indices, k - 1);
      if k - 1 !in full {
        assert (full + [k - 1])[..|full|] == full;
        full := full + [k - 1];
      }
    }
  }

  lemma BytesWithinWhole(parts: seq<seq<byte>>, indices: seq<nat>)
    requires Distinct(indices) && forall i :: i in indices ==> i < |parts|
    ensures Bytes(parts, indices) <= |Flatten(parts)|
  {
    var full := FillUp(parts, indices, |parts|);
    BytesOfPermutation(parts, full, |parts|);
    assert parts[..|parts|] == parts;
  }

  lemma {:induction false} BytesRise(parts: seq<seq<byte>>, indices: seq<nat>, j: nat, k: nat)
    requires j < k <= |indices|
    requires forall i :: i in indices ==> i < |parts| && parts[i] != []
    ensures Bytes(parts, indices[..j]) < Bytes(parts, indices[..k])
    decreases k
  {
    assert indices[..k][..k - 1] == indices[..k - 1];
    assert indices[k - 1] in indices;
    if j < k - 1 {
      BytesRise(parts, indices, j, k - 1);
    }
  }

  // ------------------------------------------------------------ the invariant

  /** The lane limit depends only on how many flood waits were seen. */
  function LimitAfter(workers: nat, floods: nat): nat {
    if floods >= 4 then Min(workers, 1) else if floods >= 2 then Min(workers, 2) else workers
  }

  ghost function Held(s: State): (r: seq<Option<nat>>)
    ensures |r| == |s.lanes|
  {
    seq(|s.lanes|, l requires 0 <= l < |s.lanes| => HeldBy(s.lanes[l].pc))
  }

  /** Every one of `n` parts is in exactly one place: still queued, held by one
      lane, or accepted; the queue holds the last ones in order. */
  ghost predicate Placed(n: nat, pending: seq<nat>, held: seq<Option<nat>>, accepted: seq<nat>) {
    && |pending| <= n
    && (forall k :: 0 <= k < |pending| ==> pending[k] == n - |pending| + k)
    && Distinct(accepted)
    && (forall i :: i in accepted ==> i < n - |pending|)
    && (forall l :: 0 <= l < |held| && held[l].Some? ==>
          held[l].value < n - |pending| && held[l].value !in accepted)
    && (forall l, m :: 0 <= l < m < |held| && held[l].Some? ==> held[l] != held[m])
    && (forall i: nat :: i < n - |pending| && i !in accepted ==> Some(i) in held)
  }

  ghost predicate DataRight(job: Job, s: State) {
    && (forall i :: i in s.stored <==> i in s.accepted)
    && (forall i :: i in s.stored ==> s.stored[i] == job.Part(i))
    && (forall l :: 0 <= l < |s.lanes| && (s.lanes[l].pc.Calling? || s.lanes[l].pc.Sleeping?) ==>
          s.lanes[l].pc.data == job.Part(s.lanes[l].pc.index))
  }

  ghost predicate Counted(parts: seq<seq<byte>>, s: State) {
    s.uploaded == Bytes(parts, s.accepted) && Reports(parts, s.accepted, s.progress)
  }

  /** Each report shows the bytes of the parts accepted by then. */
  ghost predicate Reports(parts: seq<seq<byte>>, accepted: seq<nat>, progress: seq<int>) {
    && |progress| == |accepted|
    && (forall k :: 0 <= k < |progress| ==> progress[k] == Bytes(parts, accepted[..k + 1]))
  }

  ghost predicate Throttled(workers: nat, s: State) {
    && |s.lanes| == workers >= 1
    && s.limit == LimitAfter(workers, s.floods)
    && (s.lanes[0].pc.Finished? ==> s.pending == [])
  }

  ghost predicate Inv(job: Job, s: State) {
    && job.Valid()
    && Placed(job.PartCount(), s.pending, Held(s), s.accepted)
    && DataRight(job, s)
    && Counted(Parts(job), s)
    && Throttled(job.workers, s)
  }

  lemma InitInv(job: Job)
    requires job.Valid()
    ensures Inv(job, Init(job))
  {
    PartCountBounds(job);
    assert forall l :: 0 <= l < job.workers ==> Held(Init(job))[l] == None;
  }

  lemma PlaceTaken(n: nat, pending: seq<nat>, held: seq<Option<nat>>, accepted: seq<nat>, l: nat)
    requires Placed(n, pending, held, accepted) && pending != [] && l < |held| && held[l] == None
    ensures Placed(n, pending[1..], held[l := Some(pending[0])], accepted)
  {
    var held' := held[l := Some(pending[0])];
    forall i: nat | i < n - |pending[1..]| && i !in accepted
      ensures Some(i) in held'
    {
      if i < n - |pending| {
        var m :| 0 <= m < |held| && held[m] == Some(i);
        assert held'[m] == Some(i);
      } else {
        assert held'[l] == Some(i);
      }
    }
  }

  lemma PlaceAccepted(n: nat, pending: seq<nat>, held: seq<Option<nat>>, accepted: seq<nat>, l: nat)
    requires Placed(n, pending, held, accepted) && l < |held| && held[l].Some?
    ensures Placed(n, pending, held[l := None], accepted + [held[l].value])
  {
    var held' := held[l := None];
    var accepted' := accepted + [held[l].value];
    forall i: nat | i < n - |pending| && i !in accepted'
      ensures Some(i) in held'
    {
      assert i !in accepted && accepted'[|accepted|] != i;
      var m :| 0 <= m < |held| && held[m] == Some(i);
      assert held'[m] == Some(i);
    }
  }

  /** Which events move a part: one takes the first queued, one gets the held one accepted. */
  lemma StepMoves(job: Job, s: State, e: Event)
    requires Enabled(s, e)
    ensures var t, l := Apply(job, s, e), e.lane;
            && |t.lanes| == |s.lanes| && t.lanes == s.lanes[l := t.lanes[l]]
            && (e.Next? && t.pending != s.pending ==>
                  && s.pending != [] && t.pending == s.pending[1..] && t.accepted == s.accepted
                  && HeldBy(s.lanes[l].pc).None? && HeldBy(t.lanes[l].pc) == Some(s.pending[0]))
            && (e.Accept? ==>
                  && HeldBy(s.lanes[l].pc).Some? && HeldBy(t.lanes[l].pc).None? && t.pending == s.pending
                  && t.accepted == s.accepted + [HeldBy(s.lanes[l].pc).value])
            && (!e.Accept? && t.pending == s.pending ==>
                  HeldBy(t.lanes[l].pc) == HeldBy(s.lanes[l].pc) && t.accepted == s.accepted)
            && (!e.Next? ==> t.pending == s.pending)
  {
    hide Degraded, Bump;
    var t := Apply(job, s, e);
    match e {
      case Next(l) =>
        assert t.pending == s.pending || |t.pending| < |s.pending|;
      case _ =>
    }
  }

  /** A step changes what lanes hold only by taking a part or getting it accepted. */
  lemma StepPlaced(job: Job, s: State, e: Event)
    requires job.Valid() && Enabled(s, e) && Placed(job.PartCount(), s.pending, Held(s), s.accepted)
    ensures var t := Apply(job, s, e); Placed(job.PartCount(), t.pending, Held(t), t.accepted)
  {
    hide Apply, Enabled, HeldBy, Placed;
    var t := Apply(job, s, e);
    var l, n := e.lane, job.PartCount();
    InLanes(s, e);
    StepMoves(job, s, e);
    assert Held(t) == Held(s)[l := HeldBy(t.lanes[l].pc)];
    if e.Next? && t.pending != s.pending {
      PlaceTaken(n, s.pending, Held(s), s.accepted, l);
    } else if e.Accept? {
      PlaceAccepted(n, s.pending, Held(s), s.accepted, l);
    } else {
      assert Held(t) == Held(s);
    }
  }

  lemma InLanes(s: State, e: Event)
    requires Enabled(s, e)
    ensures e.lane < |s.lanes|
  {
  }

  predicate InHand(pc: Pc) { pc.Calling? || pc.Sleeping? }

  /** Data reaches a lane by reading its part, and the server by being accepted. */
  lemma DataMoves(job: Job, s: State, e: Event)
    requires Enabled(s, e)
    ensures var t, old', new' := Apply(job, s, e), s.lanes[e.lane].pc, Apply(job, s, e).lanes[e.lane].pc;
            && t.stored == (if e.Accept? then s.stored[old'.index := old'.data] else s.stored)
            && (InHand(new') ==> if e.ReadDone? then new'.data == job.Part(new'.index)
                                 else InHand(old') && new'.index == old'.index && new'.data == old'.data)
  {
    hide Degraded, Bump, HeldBy;
    match e
    case ReadDone(_) =>
    case Flood(_, _) =>
    case _ =>
  }

  lemma StepDataRight(job: Job, s: State, e: Event)
    requires DataRight(job, s) && Enabled(s, e)
    ensures DataRight(job, Apply(job, s, e))
  {
    hide Apply, HeldBy;
    var t := Apply(job, s, e);
    StepMoves(job, s, e);
    DataMoves(job, s, e);
    AcceptedBy(job, s, e);
    assert forall l :: 0 <= l < |t.lanes| && l != e.lane ==> t.lanes[l] == s.lanes[l];
  }

  lemma StepCounted(job: Job, s: State, e: Event)
    requires job.Valid() && Enabled(s, e)
    requires DataRight(job, s) && Counted(Parts(job), s) && Placed(job.PartCount(), s.pending, Held(s), s.accepted)
    ensures Counted(Parts(job), Apply(job, s, e))
  {
    hide Apply, Bytes, Placed, Reports, DataRight;
    AcceptedBy(job, s, e);
    if e.Accept? {
      var lane := s.lanes[e.lane];
      assert Held(s)[e.lane] == Some(lane.pc.index);
      HeldIsPart(job, s, e.lane);
      OneMoreReport(Parts(job), s.accepted, s.progress, lane.pc.index);
    }
  }

  lemma AcceptedBy(job: Job, s: State, e: Event)
    requires Enabled(s, e)
    ensures var t := Apply(job, s, e);
            if e.Accept? then
              var pc := s.lanes[e.lane].pc;
              && t.accepted == s.accepted + [pc.index] && t.uploaded == s.uploaded + |pc.data|
              && t.progress == s.progress + [s.uploaded + |pc.data|]
            else t.accepted == s.accepted && t.uploaded == s.uploaded && t.progress == s.progress
  {
    hide Degraded, Bump, HeldBy;
  }

  lemma HeldIsPart(job: Job, s: State, l: nat)
    requires job.Valid() && DataRight(job, s) && Placed(job.PartCount(), s.pending, Held(s), s.accepted)
    requires l < |s.lanes| && s.lanes[l].pc.Calling?
    ensures var pc := s.lanes[l].pc; pc.index < |Parts(job)| && pc.data == Parts(job)[pc.index]
  {
    assert Held(s)[l] == Some(s.lanes[l].pc.index);
  }

  lemma OneMoreReport(parts: seq<seq<byte>>, accepted: seq<nat>, progress: seq<int>, i: nat)
    requires i < |parts| && Reports(parts, accepted, progress)
    ensures var total := Bytes(parts, accepted) + |parts[i]|;
            Bytes(parts, accepted + [i]) == total && Reports(parts, accepted + [i], progress + [total])
  {
    var all := accepted + [i];
    assert all[..|accepted|] == accepted;
    forall k | 0 <= k < |all| ensures (progress + [Bytes(parts, all)])[k] == Bytes(parts, all[..k + 1]) {
      assert all[..k + 1] == if k < |accepted| then accepted[..k + 1] else all;
    }
  }

  lemma DegradedIs(floods: nat, limit: nat)
    ensures Degraded(floods, limit, DEGRADE_AFTER) ==
            if floods >= 4 && 1 < limit then 1 else if floods >= 2 && 2 < limit then 2 else limit
  {
    assert DEGRADE_AFTER[1..] == [(2, 2)];
    assert Degraded(floods, limit, [(2, 2)][1..]) == limit;
    assert Degraded(floods, limit, [(2, 2)]) == if floods >= 2 && 2 < limit then 2 else limit;
  }

  lemma LimitMoves(job: Job, s: State, e: Event)
    requires Enabled(s, e)
    ensures var t := Apply(job, s, e);
            if e.Flood? then t.floods == s.floods + 1 && t.limit == Degraded(t.floods, s.limit, DEGRADE_AFTER)
            else t.floods == s.floods && t.limit == s.limit
  {
    hide Degraded, Bump, HeldBy;
  }

  /** Lane 0 stops on its own only when the limit is 0 or the queue is empty. */
  lemma FirstLaneStops(job: Job, s: State, e: Event)
    requires Enabled(s, e)
    ensures var t := Apply(job, s, e);
            && |t.pending| <= |s.pending|
            && (t.lanes[0].pc.Finished? && !s.lanes[0].pc.Finished? ==> s.limit == 0 || s.pending == [])
  {
    hide Degraded, Bump, HeldBy;
    match e
    case Next(_) =>
    case _ =>
  }

  lemma LimitStays(workers: nat, floods: nat, limit: nat)
    requires workers >= 1 && limit == LimitAfter(workers, floods)
    ensures Degraded(floods + 1, limit, DEGRADE_AFTER) == LimitAfter(workers, floods + 1)
    ensures limit >= 1
  {
    hide Degraded;
    DegradedIs(floods + 1, limit);
  }

  lemma StepThrottled(job: Job, s: State, e: Event)
    requires Throttled(job.workers, s) && Enabled(s, e)
    ensures Throttled(job.workers, Apply(job, s, e))
  {
    hide Apply, Enabled, Degraded, LimitAfter;
    StepMoves(job, s, e);
    LimitMoves(job, s, e);
    FirstLaneStops(job, s, e);
    LimitStays(job.workers, s.floods, s.limit);
  }

  lemma StepInv(job: Job, s: State, e: Event)
    requires Inv(job, s) && Enabled(s, e)
    ensures Inv(job, Apply(job, s, e))
  {
    StepPlaced(job, s, e);
    StepDataRight(job, s, e);
    StepCounted(job, s, e);
    StepThrottled(job, s, e);
  }

  lemma {:induction false} RunInv(job: Job, es: seq<Event>, t: State)
    requires job.Valid() && Runs(job, Init(job), es, t)
    ensures Inv(job, t)
    decreases |es|
  {
    if es == [] {
      InitInv(job);
    } else {
      var u, e := es[..|es| - 1], es[|es| - 1];
      var mid :| Runs(job, Init(job), u, mid) && Enabled(mid, e) && t == Apply(job, mid, e);
      RunInv(job, u, mid);
      StepInv(job, mid, e);
    }
  }

  // ------------------------------------------------------------ main results

  /** What the server has once it joins the parts it stored. */
  ghost function FileAtServer(stored: map<nat, seq<byte>>, n: nat): seq<byte>
    requires forall i: nat :: i < n ==> i in stored
  {
    Flatten(seq(n, i requires 0 <= i < n => stored[i]))
  }

  /** Safety over every interleaving: after a normal return each part was accepted
      exactly once and the accepted parts joined by index are the file. */
  lemma NormalReturnDeliversTheFile(job: Job, es: seq<Event>, t: State)
    requires job.Valid() && Runs(job, Init(job), es, t) && ReturnsNormally(t)
    ensures Distinct(t.accepted) && |t.accepted| == job.PartCount()
    ensures forall i: nat :: i < job.PartCount() <==> i in t.accepted
    ensures forall i: nat :: i < job.PartCount() <==> i in t.stored
    ensures FileAtServer(t.stored, job.PartCount()) == job.file
    ensures t.uploaded == |job.file|
  {
    RunInv(job, es, t);
    AllAccepted(job, t);
    AcceptedIsTheFile(job, t.accepted, t.stored);
  }

  lemma AcceptedIsTheFile(job: Job, accepted: seq<nat>, stored: map<nat, seq<byte>>)
    requires job.Valid() && Distinct(accepted)
    requires forall i: nat :: i < job.PartCount() <==> i in accepted
    requires forall i: nat :: i < job.PartCount() ==> i in stored && stored[i] == job.Part(i)
    ensures |accepted| == job.PartCount() && Bytes(Parts(job), accepted) == |job.file|
    ensures FileAtServer(stored, job.PartCount()) == job.file
  {
    hide Bytes, Flatten, Job.Part, Job.PartCount;
    var n := job.PartCount();
    BytesOfPermutation(Parts(job), accepted, n);
    PartsAreTheFile(job);
    assert Parts(job)[..n] == Parts(job);
    assert seq(n, i requires 0 <= i < n => stored[i]) == Parts(job);
  }

  lemma AllAccepted(job: Job, t: State)
    requires Inv(job, t) && ReturnsNormally(t)
    ensures Distinct(t.accepted)
    ensures forall i: nat :: i < job.PartCount() <==> i in t.accepted
    ensures forall i: nat :: i < job.PartCount() <==> i in t.stored
    ensures forall i :: i in t.stored ==> t.stored[i] == job.Part(i)
  {
    assert t.lanes[0].pc.Finished?;
    assert forall l :: 0 <= l < |t.lanes| ==> Held(t)[l] == None;
    assert forall i: nat :: Some(i) !in Held(t);
  }

  /** In every run, whatever its outcome, the reported byte count rises strictly
      and never passes the file size. */
  lemma ProgressRises(job: Job, es: seq<Event>, t: State)
    requires job.Valid() && Runs(job, Init(job), es, t)
    ensures forall j, k :: 0 <= j < k < |t.progress| ==> t.progress[j] < t.progress[k]
    ensures forall k :: 0 <= k < |t.progress| ==> 0 < t.progress[k] <= |job.file|
  {
    RunInv(job, es, t);
    forall i | i in t.accepted ensures i < |Parts(job)| && Parts(job)[i] != [] { PartIsNonEmpty(job, i); }
    PartsAreTheFile(job);
    SumsRise(Parts(job), t.accepted, t.progress);
  }

  lemma SumsRise(parts: seq<seq<byte>>, indices: seq<nat>, sums: seq<int>)
    requires Distinct(indices) && forall i :: i in indices ==> i < |parts| && parts[i] != []
    requires |sums| == |indices| && forall k :: 0 <= k < |sums| ==> sums[k] == Bytes(parts, indices[..k + 1])
    ensures forall k :: 0 <= k < |sums| ==> 0 < sums[k] <= |Flatten(parts)|
    ensures forall j, k :: 0 <= j < k < |sums| ==> sums[j] < sums[k]
  {
    forall k | 0 <= k < |sums|
      ensures 0 < sums[k] <= |Flatten(parts)|
    {
      BytesRise(parts, indices, 0, k + 1);
      var front := indices[..k + 1];
      forall i | i in front ensures i < |parts| { assert i in indices; }
      BytesWithinWhole(parts, front);
    }
    forall j, k | 0 <= j < k < |sums|
      ensures sums[j] < sums[k]
    {
      BytesRise(parts, indices, j + 1, k + 1);
    }
  }

  /** The lane limit: five lanes, two after two flood waits, one after four, and
      never below one, so lane 0 always goes on until the queue is empty. */
  lemma LaneLimit(job: Job, es: seq<Event>, t: State)
    requires job.Valid() && Runs(job, Init(job), es, t)
    ensures 1 <= t.limit <= job.workers && t.limit == LimitAfter(job.workers, t.floods)
    ensures |t.lanes| == job.workers && (t.lanes[0].pc.Finished? ==> t.pending == [])
  {
    RunInv(job, es, t);
  }

  /** No part is ever lost: in every reachable state a part that is not accepted
      is queued, or held by exactly one lane. */
  lemma NoPartStranded(job: Job, es: seq<Event>, t: State, index: nat)
    requires job.Valid() && Runs(job, Init(job), es, t)
    requires index < job.PartCount() && index !in t.accepted
    ensures index in t.pending <==> Some(index) !in Held(t)
    ensures forall l, m :: 0 <= l < m < |Held(t)| ==> Held(t)[l] == Some(index) ==> Held(t)[m] != Some(index)
  {
    RunInv(job, es, t);
    var taken := job.PartCount() - |t.pending|;
    if index >= taken {
      assert t.pending[index - taken] == index;
    }
  }

  // ------------------------------------------------------------ how much one part can cost

  /** Requests and flood waits already spent on the part a lane is working on. */
  ghost predicate Spent(lane: Lane, requests: seq<nat>, waits: seq<nat>)
    requires |requests| == |waits|
  {
    match lane.pc
    case Reading(i) => i < |requests| ==> requests[i] == 0 && waits[i] == 0
    case Calling(i, _, second, attempts) =>
      attempts <= MAX_FLOOD_RETRIES_PER_PART && (second ==> lane.onMain) &&
      (i < |requests| ==>
        && (if second then attempts + 2 <= requests[i] <= attempts + 8 else requests[i] == attempts + 1)
        && (if second then attempts <= waits[i] <= attempts + 6 else waits[i] == attempts))
    case Sleeping(i, _, second, attempts) =>
      attempts <= MAX_FLOOD_RETRIES_PER_PART && (second ==> lane.onMain) &&
      (i < |requests| ==>
        && (if second then attempts + 1 <= requests[i] <= attempts + 7 else requests[i] == attempts)
        && (if second then attempts <= waits[i] <= attempts + 6 else waits[i] == attempts))
    case _ => true
  }

  ghost predicate Costs(n: nat, s: State)
    requires |s.pending| <= n
  {
    && |s.requests| == |s.waits| == |s.slept| == n
    && (forall i :: 0 <= i < n ==>
          s.requests[i] <= 14 && s.waits[i] <= 12 && s.slept[i] <= MAX_FLOOD_WAIT_SECONDS * s.waits[i])
    && (forall i :: n - |s.pending| <= i < n ==> s.requests[i] == 0 && s.waits[i] == 0)
    && (forall l :: 0 <= l < |s.lanes| ==> Spent(s.lanes[l], s.requests, s.waits))
  }

  /** A lane is unaffected by what is spent on parts it does not hold. */
  lemma SpentElsewhere(lane: Lane, requests: seq<nat>, waits: seq<nat>, requests': seq<nat>, waits': seq<nat>)
    requires |requests| == |waits| == |requests'| == |waits'| && Spent(lane, requests, waits)
    requires forall j :: 0 <= j < |requests| && HeldBy(lane.pc) == Some(j) ==>
               requests'[j] == requests[j] && waits'[j] == waits[j]
    ensures Spent(lane, requests', waits')
  {
  }

  /** A step spends only on the part its own lane holds. */
  lemma TouchesOnly(job: Job, s: State, e: Event)
    requires Enabled(s, e) && |s.requests| == |s.waits|
    ensures var t := Apply(job, s, e);
            && |t.requests| == |t.waits| == |s.requests|
            && (forall j :: 0 <= j < |s.requests| && HeldBy(s.lanes[e.lane].pc) != Some(j) ==>
                  t.requests[j] == s.requests[j] && t.waits[j] == s.waits[j])
            && |t.lanes| == |s.lanes|
            && (forall l :: 0 <= l < |s.lanes| && l != e.lane ==> t.lanes[l] == s.lanes[l])
  {
    hide Degraded;
    match e
    case Flood(_, _) =>
    case Fail(_) =>
    case _ =>
  }

  lemma OwnLaneSpent(job: Job, s: State, e: Event)
    requires Enabled(s, e) && |s.requests| == |s.waits| && Spent(s.lanes[e.lane], s.requests, s.waits)
    requires e.Next? && s.pending != [] && s.pending[0] < |s.requests| ==>
               s.requests[s.pending[0]] == 0 && s.waits[s.pending[0]] == 0
    ensures var t := Apply(job, s, e);
            |t.requests| == |t.waits| && Spent(t.lanes[e.lane], t.requests, t.waits)
  {
    hide Degraded;
    match e
    case Flood(l, seconds) => FloodSpent(job, s, l, seconds);
    case Fail(l) => FailSpent(job, s, l);
    case Next(_) =>
    case ReadDone(_) =>
    case _ =>
  }

  lemma FloodSpent(job: Job, s: State, l: nat, seconds: nat)
    requires Enabled(s, Flood(l, seconds)) && |s.requests| == |s.waits| && Spent(s.lanes[l], s.requests, s.waits)
    ensures var t := Apply(job, s, Flood(l, seconds));
            |t.requests| == |t.waits| && Spent(t.lanes[l], t.requests, t.waits)
  {
    hide Degraded;
  }

  lemma FailSpent(job: Job, s: State, l: nat)
    requires Enabled(s, Fail(l)) && |s.requests| == |s.waits| && Spent(s.lanes[l], s.requests, s.waits)
    ensures var t := Apply(job, s, Fail(l));
            |t.requests| == |t.waits| && Spent(t.lanes[l], t.requests, t.waits)
  {
  }

  lemma StepSpent(job: Job, s: State, e: Event)
    requires job.Valid() && Enabled(s, e)
    requires Placed(job.PartCount(), s.pending, Held(s), s.accepted) && Costs(job.PartCount(), s)
    ensures var t := Apply(job, s, e);
            && |t.requests| == |t.waits| == job.PartCount()
            && forall l :: 0 <= l < |t.lanes| ==> Spent(t.lanes[l], t.requests, t.waits)
  {
    var t := Apply(job, s, e);
    TouchesOnly(job, s, e);
    OwnLaneSpent(job, s, e);
    forall l | 0 <= l < |t.lanes| && l != e.lane
      ensures Spent(t.lanes[l], t.requests, t.waits)
    {
      assert Spent(s.lanes[l], s.requests, s.waits);
      assert Held(s)[l] == HeldBy(s.lanes[l].pc) && Held(s)[e.lane] == HeldBy(s.lanes[e.lane].pc);
      SpentElsewhere(s.lanes[l], s.requests, s.waits, t.requests, t.waits);
    }
  }

  lemma StepCosts(job: Job, s: State, e: Event)
    requires job.Valid() && Enabled(s, e)
    requires Placed(job.PartCount(), s.pending, Held(s), s.accepted) && Costs(job.PartCount(), s)
    ensures |Apply(job, s, e).pending| <= job.PartCount() && Costs(job.PartCount(), Apply(job, s, e))
  {
    hide Degraded;
    StepSpent(job, s, e);
    assert Spent(s.lanes[e.lane], s.requests, s.waits);
    assert Held(s)[e.lane] == HeldBy(s.lanes[e.lane].pc);
  }

  lemma {:induction false} RunCosts(job: Job, es: seq<Event>, t: State)
    requires job.Valid() && Runs(job, Init(job), es, t)
    ensures |t.pending| <= job.PartCount() && Costs(job.PartCount(), t)
    decreases |es|
  {
    PartCountBounds(job);
    if es != [] {
      var u, e := es[..|es| - 1], es[|es| - 1];
      var mid :| Runs(job, Init(job), u, mid) && Enabled(mid, e) && t == Apply(job, mid, e);
      RunCosts(job, u, mid);
      RunInv(job, u, mid);
      StepCosts(job, mid, e);
    }
  }

  /** The real bound on one part: 14 requests, and 12 waits of at most 120 seconds. */
  lemma PartCost(job: Job, es: seq<Event>, t: State, index: nat)
    requires job.Valid() && Runs(job, Init(job), es, t) && index < job.PartCount()
    ensures |t.requests| == |t.waits| == |t.slept| == job.PartCount()
    ensures t.requests[index] <= 14 && t.waits[index] <= 12
    ensures t.slept[index] <= 12 * MAX_FLOOD_WAIT_SECONDS
  {
    RunCosts(job, es, t);
  }

  // ------------------------------------------------------------ termination

  /** Events a lane can still take part in before it must fetch a new part. */
  ghost function Rank(pc: Pc): nat {
    match pc
    case LoopHead => 1
    case Reading(_) => 29
    case Calling(_, _, second, attempts) => (if second then 3 else 16) + 2 * Max(6 - attempts, 0)
    case Sleeping(_, _, second, attempts) => (if second then 4 else 17) + 2 * Max(6 - attempts, 0)
    case Reporting => 2
    case _ => 0
  }

  ghost function Ranks(lanes: seq<Lane>): nat {
    if lanes == [] then 0 else Ranks(lanes[..|lanes| - 1]) + Rank(lanes[|lanes| - 1].pc)
  }

  lemma {:induction false} RanksUpdate(lanes: seq<Lane>, l: nat, lane: Lane)
    requires l < |lanes|
    ensures Ranks(lanes[l := lane]) == Ranks(lanes) - Rank(lanes[l].pc) + Rank(lane.pc)
  {
    var last := |lanes| - 1;
    if l == last {
      assert lanes[l := lane][..last] == lanes[..last];
    } else {
      assert lanes[l := lane][..last] == lanes[..last][l := lane];
      RanksUpdate(lanes[..last], l, lane);
    }
  }

  /** The measure: each queued part is worth 29 events. */
  ghost function Remaining(s: State): nat { 29 * |s.pending| + Ranks(s.lanes) }

  /** The moving lane alone falls in rank, or pays for a new part with one of the queue. */
  lemma RankFalls(job: Job, s: State, e: Event)
    requires Enabled(s, e) && |s.requests| == |s.waits| && Spent(s.lanes[e.lane], s.requests, s.waits)
    ensures var t, l := Apply(job, s, e), e.lane;
            |t.lanes| == |s.lanes| && 29 * |t.pending| + Rank(t.lanes[l].pc) < 29 * |s.pending| + Rank(s.lanes[l].pc)
  {
    hide Degraded, Bump;
    match e
    case Next(_) =>
    case Flood(_, _) =>
    case Wake(_) =>
    case _ =>
  }

  lemma StepDecreases(job: Job, s: State, e: Event)
    requires Enabled(s, e)
    requires |s.requests| == |s.waits| && forall l :: 0 <= l < |s.lanes| ==> Spent(s.lanes[l], s.requests, s.waits)
    ensures Remaining(Apply(job, s, e)) < Remaining(s)
  {
    hide Apply, Enabled, Rank, Ranks, HeldBy, Spent;
    var t := Apply(job, s, e);
    InLanes(s, e);
    RankFalls(job, s, e);
    StepMoves(job, s, e);
    RanksUpdate(s.lanes, e.lane, t.lanes[e.lane]);
  }

  lemma {:induction false} RanksOfReady(lanes: seq<Lane>)
    requires forall l :: 0 <= l < |lanes| ==> lanes[l].pc.LoopHead?
    ensures Ranks(lanes) == |lanes|
  {
    if lanes != [] {
      RanksOfReady(lanes[..|lanes| - 1]);
    }
  }

  /** Whatever the server and the scheduler do, an upload takes at most 29 events
      a part plus one a lane. */
  lemma {:induction false} UploadTerminates(job: Job, es: seq<Event>, t: State)
    requires job.Valid() && Runs(job, Init(job), es, t)
    ensures |es| + Remaining(t) <= 29 * job.PartCount() + job.workers
    decreases |es|
  {
    if es == [] {
      PartCountBounds(job);
      RanksOfReady(t.lanes);
    } else {
      var u, e := es[..|es| - 1], es[|es| - 1];
      var mid :| Runs(job, Init(job), u, mid) && Enabled(mid, e) && t == Apply(job, mid, e);
      UploadTerminates(job, u, mid);
      RunCosts(job, u, mid);
      StepDecreases(job, mid, e);
    }
  }
}

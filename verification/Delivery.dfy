/** One run of the download pipeline (pipeline.py) after its files are on disk: sending them
    in download order, recording what reached the user, charging for exactly that, and
    caching a complete result. */
module Delivery {
  import opened Common
  import opened VideoCache
  import Captions
  import Credits

  const VIDEO := "video"
  const PHOTO := "photo"
  const AUDIO := "audio"

  /** One file on disk; kind and duration are what probing this very file finds. */
  datatype Part = Part(size: nat, name: string, kind: string)

  /** One downloaded file, probed as a whole, and the parts it was split into (or itself). */
  datatype Group = Group(kind: string, width: nat, height: nat, duration: nat, forceDocument: bool, parts: seq<Part>)

  datatype Job = Job(groups: seq<Group>, title: Option<string>, url: string, asDocument: bool, titleLength: nat)

  // ------------------------------------------------------------ what is to be sent

  /** Part `index` (from 1) of group `g`. */
  datatype Slot = Slot(g: nat, group: Group, part: Part, index: nat)

  function GroupSlots(job: Job, g: nat): seq<Slot>
    requires g < |job.groups|
  {
    var group := job.groups[g];
    seq(|group.parts|, j requires 0 <= j < |group.parts| => Slot(g, group, group.parts[j], j + 1))
  }

  /** The parts of the first `n` groups in download order. */
  function SlotsUpTo(job: Job, n: nat): seq<Slot>
    requires n <= |job.groups|
  {
    if n == 0 then [] else SlotsUpTo(job, n - 1) + GroupSlots(job, n - 1)
  }

  function AllSlots(job: Job): seq<Slot> { SlotsUpTo(job, |job.groups|) }

  /** Whole photos and videos of a request with several files travel in albums. */
  predicate Eligible(job: Job, group: Group) {
    |job.groups| > 1 && |group.parts| == 1 && !job.asDocument && !group.forceDocument
    && (group.kind == VIDEO || group.kind == PHOTO)
  }

  predicate LastGroup(job: Job, s: Slot) { s.g + 1 == |job.groups| }

  // ------------------------------------------------------------ captions

  function TotalParts(s: Slot): nat { |s.group.parts| }

  predicate Playable(s: Slot) {
    s.part.kind == s.group.kind && (s.group.kind == VIDEO || s.group.kind == AUDIO)
  }

  /** The label `_prepare_part` gives a part; a whole file has none. */
  function Label(job: Job, s: Slot): string {
    if TotalParts(s) == 1 then ""
    else if !Playable(s) || job.asDocument then Captions.DocPartLabel(s.index, TotalParts(s), s.part.name)
    else Captions.PartLabel(s.index, TotalParts(s))
  }

  function Signature(job: Job, s: Slot): string {
    var group := s.group;
    Captions.UserCaption(group.kind, job.title, job.url, group.width, group.height, group.duration,
                         job.titleLength, Captions.ReservedFor(Label(job, s)))
  }

  /** The caption a part is sent with. */
  function SentCaption(job: Job, s: Slot): string {
    if Eligible(job, s.group) then if LastGroup(job, s) then Signature(job, s) else ""
    else if Label(job, s) == "" then Signature(job, s)
    else Captions.WithPartLabel(Label(job, s), Signature(job, s))
  }

  /** The caption left standing once the whole request is delivered and all edits worked. */
  function StandingCaption(job: Job, s: Slot): string {
    if s.index < TotalParts(s) then Label(job, s) else SentCaption(job, s)
  }

  // ------------------------------------------------------------ the plan

  datatype Batch = Album(items: seq<Slot>, signed: bool) | Single(slot: Slot)

  function BatchSlots(b: Batch): seq<Slot> { if b.Album? then b.items else [b.slot] }

  function SlotsOf(bs: seq<Batch>): seq<Slot> {
    if bs == [] then [] else SlotsOf(bs[..|bs| - 1]) + BatchSlots(bs[|bs| - 1])
  }

  lemma {:induction false} SlotsOfConcat(a: seq<Batch>, b: seq<Batch>)
    ensures SlotsOf(a + b) == SlotsOf(a) + SlotsOf(b)
  {
    if b == [] {
      assert a + b == a;
    } else {
      assert (a + b)[..|a + b| - 1] == a + b[..|b| - 1];
      SlotsOfConcat(a, b[..|b| - 1]);
    }
  }

  /** `flush_album`: chunks of ten; only the last chunk of the final flush is signed. */
  function Albums(items: seq<Slot>, final: bool): seq<Batch>
    decreases |items|
  {
    if items == [] then []
    else if |items| <= 10 then [Album(items, final)]
    else [Album(items[..10], false)] + Albums(items[10..], final)
  }

  function Singles(slots: seq<Slot>): seq<Batch> {
    seq(|slots|, i requires 0 <= i < |slots| => Single(slots[i]))
  }

  /** The batches of the groups from `g` on, with `buffer` collected so far. */
  function PlanFrom(job: Job, g: nat, buffer: seq<Slot>): seq<Batch>
    requires g <= |job.groups|
    decreases |job.groups| - g
  {
    if g == |job.groups| then Albums(buffer, true)
    else if Eligible(job, job.groups[g]) then PlanFrom(job, g + 1, buffer + GroupSlots(job, g))
    else Albums(buffer, false) + Singles(GroupSlots(job, g)) + PlanFrom(job, g + 1, [])
  }

  function Plan(job: Job): seq<Batch> { PlanFrom(job, 0, []) }

  lemma {:induction false} AlbumsCover(items: seq<Slot>, final: bool)
    ensures SlotsOf(Albums(items, final)) == items
    decreases |items|
  {
    if items == [] {
    } else if |items| <= 10 {
      assert [Album(items, final)][..0] == [];
      assert SlotsOf([Album(items, final)]) == [] + items;
    } else {
      var first := [Album(items[..10], false)];
      assert first[..0] == [];
      assert SlotsOf(first) == [] + items[..10];
      AlbumsCover(items[10..], final);
      SlotsOfConcat(first, Albums(items[10..], final));
    }
  }

  lemma {:induction false} SinglesCover(slots: seq<Slot>)
    ensures SlotsOf(Singles(slots)) == slots
  {
    if slots != [] {
      var init := slots[..|slots| - 1];
      SinglesCover(init);
      assert Singles(slots)[..|slots| - 1] == Singles(init);
      assert SlotsOf(Singles(slots)) == init + [slots[|slots| - 1]];
    }
  }

  /** The parts of the groups from `g` on. */
  function SlotsFrom(job: Job, g: nat): seq<Slot>
    requires g <= |job.groups|
    decreases |job.groups| - g
  {
    if g == |job.groups| then [] else GroupSlots(job, g) + SlotsFrom(job, g + 1)
  }

  lemma {:induction false} SlotsSplit(job: Job, g: nat)
    requires g <= |job.groups|
    ensures SlotsUpTo(job, g) + SlotsFrom(job, g) == AllSlots(job)
    decreases |job.groups| - g
  {
    hide GroupSlots;
    if g < |job.groups| {
      SlotsSplit(job, g + 1);
      assert SlotsUpTo(job, g + 1) == SlotsUpTo(job, g) + GroupSlots(job, g);
      assert (SlotsUpTo(job, g) + GroupSlots(job, g)) + SlotsFrom(job, g + 1)
          == SlotsUpTo(job, g) + (GroupSlots(job, g) + SlotsFrom(job, g + 1));
    } else {
      assert SlotsUpTo(job, g) + [] == SlotsUpTo(job, g);
    }
  }

  lemma {:induction false} PlanFromCovers(job: Job, g: nat, buffer: seq<Slot>)
    requires g <= |job.groups|
    ensures SlotsOf(PlanFrom(job, g, buffer)) == buffer + SlotsFrom(job, g)
    decreases |job.groups| - g
  {
    hide GroupSlots, Eligible, Albums, Singles, SlotsOf;
    if g == |job.groups| {
      AlbumsCover(buffer, true);
      assert buffer + [] == buffer;
    } else if Eligible(job, job.groups[g]) {
      PlanFromCovers(job, g + 1, buffer + GroupSlots(job, g));
      assert buffer + GroupSlots(job, g) + SlotsFrom(job, g + 1) == buffer + (GroupSlots(job, g) + SlotsFrom(job, g + 1));
    } else {
      var a, b, c := Albums(buffer, false), Singles(GroupSlots(job, g)), PlanFrom(job, g + 1, []);
      AlbumsCover(buffer, false);
      SinglesCover(GroupSlots(job, g));
      PlanFromCovers(job, g + 1, []);
      SlotsOfConcat(a + b, c);
      SlotsOfConcat(a, b);
      assert buffer + GroupSlots(job, g) + ([] + SlotsFrom(job, g + 1)) == buffer + (GroupSlots(job, g) + SlotsFrom(job, g + 1));
    }
  }

  /** The batches, taken together, are every part of every file once, in download order. */
  lemma PlanCovers(job: Job)
    ensures SlotsOf(Plan(job)) == AllSlots(job)
  {
    PlanFromCovers(job, 0, []);
    SlotsSplit(job, 0);
    assert SlotsUpTo(job, 0) + SlotsFrom(job, 0) == SlotsFrom(job, 0);
  }

  // ------------------------------------------------------------ albums

  predicate GoodAlbum(job: Job, b: Batch) {
    b.Album? ==>
      && 1 <= |b.items| <= 10
      && forall i :: 0 <= i < |b.items| ==> Eligible(job, b.items[i].group)
  }

  ghost predicate AllEligible(job: Job, slots: seq<Slot>) {
    forall i :: 0 <= i < |slots| ==> Eligible(job, slots[i].group)
  }

  lemma {:induction false} AlbumsAreGood(job: Job, items: seq<Slot>, final: bool)
    requires AllEligible(job, items)
    ensures var bs := Albums(items, final);
            && (forall k :: 0 <= k < |bs| ==> bs[k].Album? && GoodAlbum(job, bs[k]) && (bs[k].signed <==> final && k == |bs| - 1))
            && (items == [] <==> bs == [])
    decreases |items|
  {
    hide Eligible;
    if |items| > 10 {
      AlbumsAreGood(job, items[10..], final);
    }
  }

  /** The signature goes out with the last batch, and only if the last file travels in it. */
  ghost predicate GoodPlan(job: Job, bs: seq<Batch>) {
    forall k :: 0 <= k < |bs| ==>
      GoodAlbum(job, bs[k]) && (bs[k].Album? ==> (bs[k].signed <==> k == |bs| - 1 && EndsInAlbum(job)))
  }

  predicate EndsInAlbum(job: Job) { job.groups != [] && Eligible(job, job.groups[|job.groups| - 1]) }

  lemma EligibleIsOne(job: Job, g: nat)
    requires g < |job.groups| && Eligible(job, job.groups[g])
    ensures |job.groups[g].parts| == 1
    ensures GroupSlots(job, g) == [Slot(g, job.groups[g], job.groups[g].parts[0], 1)]
  {
  }

  lemma {:induction false} PlanNotEmpty(job: Job, g: nat, buffer: seq<Slot>)
    requires g <= |job.groups| && (buffer != [] || (g < |job.groups| && EndsInAlbum(job)))
    ensures PlanFrom(job, g, buffer) != []
    decreases |job.groups| - g
  {
    hide Eligible, GroupSlots, Singles;
    if g < |job.groups| {
      if Eligible(job, job.groups[g]) {
        EligibleIsOne(job, g);
        PlanNotEmpty(job, g + 1, buffer + GroupSlots(job, g));
      } else if g + 1 < |job.groups| && EndsInAlbum(job) {
        PlanNotEmpty(job, g + 1, []);
      }
    }
  }

  /** What the buffer holds when group `g` is reached: the eligible groups just before it. */
  ghost predicate Buffered(job: Job, g: nat, buffer: seq<Slot>) {
    && |buffer| <= g <= |job.groups| && AllEligible(job, buffer)
    && (forall i :: 0 <= i < |buffer| ==> buffer[i].g == g - |buffer| + i && buffer[i].index == 1)
    && (buffer != [] ==> Eligible(job, job.groups[g - 1]))
  }

  lemma BufferGrows(job: Job, g: nat, buffer: seq<Slot>)
    requires Buffered(job, g, buffer) && g < |job.groups| && Eligible(job, job.groups[g])
    ensures Buffered(job, g + 1, buffer + GroupSlots(job, g))
  {
    hide Eligible, GroupSlots;
    EligibleIsOne(job, g);
  }

  lemma {:induction false} PlanFromIsGood(job: Job, g: nat, buffer: seq<Slot>)
    requires Buffered(job, g, buffer)
    ensures GoodPlan(job, PlanFrom(job, g, buffer))
    decreases |job.groups| - g
  {
    hide Eligible, GroupSlots, GoodAlbum, Albums;
    if g == |job.groups| {
      AlbumsAreGood(job, buffer, true);
    } else if Eligible(job, job.groups[g]) {
      BufferGrows(job, g, buffer);
      PlanFromIsGood(job, g + 1, buffer + GroupSlots(job, g));
    } else {
      var a, b, c := Albums(buffer, false), Singles(GroupSlots(job, g)), PlanFrom(job, g + 1, []);
      AlbumsAreGood(job, buffer, false);
      PlanFromIsGood(job, g + 1, []);
      if EndsInAlbum(job) {
        PlanNotEmpty(job, g + 1, []);
      }
      assert forall k :: 0 <= k < |b| ==> b[k].Single? && GoodAlbum(job, b[k]) by {
        SinglesAreGood(job, GroupSlots(job, g));
      }
      JoinedPlan(job, a + b, c);
    }
  }

  lemma SinglesAreGood(job: Job, slots: seq<Slot>)
    ensures forall k :: 0 <= k < |Singles(slots)| ==> Singles(slots)[k].Single? && GoodAlbum(job, Singles(slots)[k])
  {
  }

  lemma JoinedPlan(job: Job, a: seq<Batch>, c: seq<Batch>)
    requires forall k :: 0 <= k < |a| ==> GoodAlbum(job, a[k]) && (a[k].Album? ==> !a[k].signed)
    requires GoodPlan(job, c) && (EndsInAlbum(job) ==> c != [])
    ensures GoodPlan(job, a + c)
  {
    hide GoodAlbum, EndsInAlbum;
    var bs := a + c;
    forall k | 0 <= k < |bs|
      ensures GoodAlbum(job, bs[k]) && (bs[k].Album? ==> (bs[k].signed <==> k == |bs| - 1 && EndsInAlbum(job)))
    {
      assert bs[k] == if k < |a| then a[k] else c[k - |a|];
    }
  }

  /** The batches of a plan: albums are full unless something else follows or nothing does. */
  ghost predicate Filled(bs: seq<Batch>) {
    forall k :: 0 <= k < |bs| - 1 && bs[k].Album? && bs[k + 1].Album? ==> |bs[k].items| == 10
  }

  lemma {:induction false} AlbumsAreFilled(items: seq<Slot>, final: bool)
    ensures Filled(Albums(items, final))
    decreases |items|
  {
    if |items| > 10 {
      AlbumsAreFilled(items[10..], final);
    }
  }

  /** What a part sent on its own is. */
  ghost predicate SinglesStayOut(job: Job, bs: seq<Batch>) {
    forall k :: 0 <= k < |bs| && bs[k].Single? ==> !Eligible(job, bs[k].slot.group)
  }

  /** A group outside albums has parts: probing finds at least the file itself. */
  predicate PartsThere(job: Job) { forall g :: 0 <= g < |job.groups| ==> job.groups[g].parts != [] }

  lemma {:induction false} PlanIsFilled(job: Job, g: nat, buffer: seq<Slot>)
    requires g <= |job.groups| && PartsThere(job)
    ensures Filled(PlanFrom(job, g, buffer))
    decreases |job.groups| - g
  {
    hide Eligible, GroupSlots, Albums, Filled;
    if g == |job.groups| {
      AlbumsAreFilled(buffer, true);
    } else if Eligible(job, job.groups[g]) {
      PlanIsFilled(job, g + 1, buffer + GroupSlots(job, g));
    } else {
      var a, b, c := Albums(buffer, false), Singles(GroupSlots(job, g)), PlanFrom(job, g + 1, []);
      AlbumsAreFilled(buffer, false);
      PlanIsFilled(job, g + 1, []);
      SomeParts(job, g);
      FilledAround(a, b, c);
    }
  }

  lemma SomeParts(job: Job, g: nat)
    requires g < |job.groups| && PartsThere(job)
    ensures Singles(GroupSlots(job, g)) != []
    ensures forall k :: 0 <= k < |Singles(GroupSlots(job, g))| ==> Singles(GroupSlots(job, g))[k].Single?
  {
  }

  lemma FilledAround(a: seq<Batch>, b: seq<Batch>, c: seq<Batch>)
    requires Filled(a) && Filled(c) && b != [] && forall k :: 0 <= k < |b| ==> b[k].Single?
    ensures Filled(a + b + c)
  {
    var bs := a + b + c;
    assert forall i :: |a| <= i < |a| + |b| ==> bs[i] == b[i - |a|] && bs[i].Single?;
    forall k | 0 <= k < |bs| - 1 && bs[k].Album? && bs[k + 1].Album? ensures |bs[k].items| == 10 {
      assert k + 1 < |a| || k >= |a| + |b|;
      if k + 1 < |a| {
        assert bs[k] == a[k] && bs[k + 1] == a[k + 1];
      } else {
        assert bs[k] == c[k - |a| - |b|] && bs[k + 1] == c[k + 1 - |a| - |b|];
      }
    }
  }

  lemma {:induction false} PlanKeepsOut(job: Job, g: nat, buffer: seq<Slot>)
    requires g <= |job.groups|
    ensures SinglesStayOut(job, PlanFrom(job, g, buffer))
    decreases |job.groups| - g
  {
    hide Eligible, Albums;
    if g == |job.groups| {
      OnlyAlbums(buffer, true);
    } else if Eligible(job, job.groups[g]) {
      PlanKeepsOut(job, g + 1, buffer + GroupSlots(job, g));
    } else {
      OnlyAlbums(buffer, false);
      PlanKeepsOut(job, g + 1, []);
    }
  }

  lemma {:induction false} OnlyAlbums(items: seq<Slot>, final: bool)
    ensures forall k :: 0 <= k < |Albums(items, final)| ==> Albums(items, final)[k].Album?
    decreases |items|
  {
    if |items| > 10 {
      OnlyAlbums(items[10..], final);
    }
  }

  /** An album holds one to ten items, ten if another album follows. Every item belongs to a
      request of several files, is an unsplit photo or video, and neither the request nor the file
      is sent as a document; a part sent on its own fails one of these tests. Only the last batch is
      signed, and it is if it is an album and the last file of the request passes them. */
  lemma AlbumsOfADelivery(job: Job)
    ensures var bs := Plan(job);
            forall k :: 0 <= k < |bs| && bs[k].Album? ==>
              && 1 <= |bs[k].items| <= 10
              && (PartsThere(job) && k + 1 < |bs| && bs[k + 1].Album? ==> |bs[k].items| == 10)
              && (bs[k].signed <==> k == |bs| - 1 && InAlbum(job, job.groups[|job.groups| - 1]))
              && forall i :: 0 <= i < |bs[k].items| ==> InAlbum(job, bs[k].items[i].group)
    ensures var bs := Plan(job); forall k :: 0 <= k < |bs| && bs[k].Single? ==> !InAlbum(job, bs[k].slot.group)
  {
    hide Eligible, Plan, GoodAlbum;
    PlanFromIsGood(job, 0, []);
    PlanKeepsOut(job, 0, []);
    if PartsThere(job) {
      PlanIsFilled(job, 0, []);
    }
    PlanIsFromStart(job);
    var bs := Plan(job);
    forall k | 0 <= k < |bs| && bs[k].Album? ensures job.groups != [] {
      AlbumGroups(job, bs, k);
    }
    forall group ensures InAlbum(job, group) <==> Eligible(job, group) {
      EligibleIs(job, group);
    }
    forall k | 0 <= k < |bs| && bs[k].Album? ensures 1 <= |bs[k].items| <= 10 && forall i :: 0 <= i < |bs[k].items| ==> Eligible(job, bs[k].items[i].group) {
      AlbumGroups(job, bs, k);
    }
  }

  /** The tests by name: several files, one part, no document, and a photo or a video. */
  predicate InAlbum(job: Job, group: Group) {
    && |job.groups| > 1 && |group.parts| == 1 && group.kind in {"photo", "video"}
    && job.asDocument == false && group.forceDocument == false
  }

  /** What stands under a part. A whole file has the signature, or nothing in an album whose last
      file it is not. A part of a split file has its number, with its name if it is a document: because
      the user wants documents, or it is not playable on its own. The last part also has the
      signature, shortened to leave room for the number. */
  lemma WhatStandsUnderAPart(job: Job, s: Slot)
    requires 1 <= s.index <= |s.group.parts|
    ensures |s.group.parts| == 1 ==>
              StandingCaption(job, s) == SentCaption(job, s) ==
                if InAlbum(job, s.group) && s.g != |job.groups| - 1 then ""
                else Captions.UserCaption(s.group.kind, job.title, job.url, s.group.width, s.group.height, s.group.duration,
                                          job.titleLength, 0)
    ensures |s.group.parts| > 1 ==>
              var playable := s.part.kind == s.group.kind && s.group.kind in {"video", "audio"};
              var above := if playable && job.asDocument == false then Captions.PartLabel(s.index, |s.group.parts|)
                           else Captions.DocPartLabel(s.index, |s.group.parts|, s.part.name);
              && SentCaption(job, s) == above + "\n\n" + Captions.UserCaption(
                   s.group.kind, job.title, job.url, s.group.width, s.group.height, s.group.duration,
                   job.titleLength, Captions.Utf16Units(above) + 2)
              && StandingCaption(job, s) == if s.index < |s.group.parts| then above else SentCaption(job, s)
  {
    hide Captions.UserCaption, Captions.Utf16Units, Captions.PartLabel, Captions.DocPartLabel;
    LabelsHaveText(s.index, |s.group.parts|, s.part.name);
  }

  lemma LabelsHaveText(index: nat, total: nat, name: string)
    ensures Captions.PartLabel(index, total) != "" && Captions.DocPartLabel(index, total, name) != ""
  {
  }

  lemma EligibleIs(job: Job, group: Group)
    ensures InAlbum(job, group) <==> Eligible(job, group)
  {
  }

  lemma PlanIsFromStart(job: Job)
    ensures Plan(job) == PlanFrom(job, 0, [])
  {
  }

  lemma AlbumGroups(job: Job, bs: seq<Batch>, k: nat)
    requires GoodPlan(job, bs) && k < |bs| && bs[k].Album?
    ensures 1 <= |bs[k].items| <= 10 && forall i :: 0 <= i < |bs[k].items| ==> Eligible(job, bs[k].items[i].group)
    ensures job.groups != []
  {
    assert GoodAlbum(job, bs[k]) && Eligible(job, bs[k].items[0].group);
  }

  // ------------------------------------------------------------ one run

  function SizesOf(slots: seq<Slot>): seq<nat> {
    seq(|slots|, i requires 0 <= i < |slots| => slots[i].part.size)
  }

  /** What the cache keeps about a delivered part. */
  function ItemFor(job: Job, s: Slot): CachedItem {
    var above := Label(job, s);
    CachedItem(s.group.kind, s.group.duration, s.group.width, s.group.height,
               if above == "" then 0 else s.index, if above == "" then 0 else TotalParts(s),
               if above == "" then None else Some(above))
  }

  /** A cached item: what was found out about the file, and which of its parts it is; a whole file
      has no number. */
  lemma WhatARowKeeps(job: Job, s: Slot)
    ensures var i := ItemFor(job, s);
            && i.kind == s.group.kind && i.duration == s.group.duration
            && i.width == s.group.width && i.height == s.group.height
            && (|s.group.parts| == 1 ==> i.partIndex == 0 && i.partTotal == 0 && i.partLabel == None)
            && (|s.group.parts| != 1 ==> i.partIndex == s.index && i.partTotal == |s.group.parts| && i.partLabel == Some(Label(job, s)))
  {
    LabelsHaveText(s.index, |s.group.parts|, s.part.name);
  }

  function ItemsOf(job: Job, slots: seq<Slot>): seq<CachedItem> {
    seq(|slots|, i requires 0 <= i < |slots| => ItemFor(job, slots[i]))
  }

  function CaptionsOf(job: Job, slots: seq<Slot>): seq<string> {
    seq(|slots|, i requires 0 <= i < |slots| => SentCaption(job, slots[i]))
  }

  /** Bandwidth of `sizes` added to the user's row, one transaction each. */
  function AddAll(users: map<int, Credits.User>, userId: int, sizes: seq<nat>): map<int, Credits.User> {
    if sizes == [] then users
    else
      var before := AddAll(users, userId, sizes[..|sizes| - 1]);
      if userId in before then before[userId := Credits.WithBandwidth(before[userId], sizes[|sizes| - 1])] else before
  }

  function Present<T>(copies: seq<Option<T>>): seq<T> {
    if copies == [] then []
    else
      var last := copies[|copies| - 1];
      Present(copies[..|copies| - 1]) + if last.Some? then [last.value] else []
  }

  lemma {:induction false} AllPresent<T>(copies: seq<Option<T>>)
    requires forall k :: 0 <= k < |copies| ==> copies[k].Some?
    ensures |Present(copies)| == |copies| && forall k :: 0 <= k < |copies| ==> Present(copies)[k] == copies[k].value
  {
    if copies != [] {
      AllPresent(copies[..|copies| - 1]);
    }
  }

  /** A caption in the chat: as sent, or cut down to its label after the next part arrived. */
  predicate CaptionStands(job: Job, chat: seq<Slot>, k: nat, caption: string)
    requires k < |chat|
  {
    || caption == SentCaption(job, chat[k])
    || (k + 1 < |chat| && chat[k + 1].g == chat[k].g && caption == Label(job, chat[k]))
  }

  lemma LabelMayStand(job: Job, chat: seq<Slot>, k: nat)
    requires k + 1 < |chat| && chat[k + 1].g == chat[k].g
    ensures CaptionStands(job, chat, k, Label(job, chat[k]))
  {
    hide Label, SentCaption;
  }

  /** Every caption is what a complete delivery leaves. */
  ghost predicate Standing(job: Job, chat: seq<Slot>, captions: seq<string>) {
    |captions| == |chat| && forall k :: 0 <= k < |chat| ==> captions[k] == StandingCaption(job, chat[k])
  }

  lemma WholeCaptions(job: Job, batch: seq<Slot>)
    ensures |CaptionsOf(job, batch)| == |batch|
    ensures CaptionsOf(job, batch)[..|batch|] == CaptionsOf(job, batch)
  {
  }

  lemma StandingGrows(job: Job, chat: seq<Slot>, captions: seq<string>, batch: seq<Slot>)
    requires forall i :: 0 <= i < |batch| ==> StandingCaption(job, batch[i]) == SentCaption(job, batch[i])
    ensures Standing(job, chat, captions) ==> Standing(job, chat + batch, captions + CaptionsOf(job, batch))
  {
    hide SentCaption, StandingCaption;
  }

  /** `chat` and `captions` are what the user sees; `recorded`, `archived`, `items` and the
      two flags are the variables of `run`. `counted` and `copies` only serve the proofs. */
  class DeliveryRun {
    const job: Job
    const userId: int
    const credits: Credits.CreditsService
    var chat: seq<Slot>
    var captions: seq<string>
    var batches: seq<Batch>
    var recorded: seq<nat>
    var archived: seq<int>
    var allArchived: bool
    var items: seq<CachedItem>
    var editFailed: bool
    var buffer: seq<Slot>
    ghost var copies: seq<Option<int>>
    ghost var counted: seq<nat>
    ghost const users0: map<int, Credits.User>

    /** Whether the k-th call to the outside comes back without an exception. */
    const succeeds: nat -> bool
    var calls: nat

    method Attempt() returns (ok: bool)
      modifies `calls
      ensures ok == succeeds(old(calls)) && calls == old(calls) + 1
    {
      ok := succeeds(calls);
      calls := calls + 1;
    }

    /** Nothing fails, and the user has a row. */
    ghost predicate Smooth() {
      (forall k :: succeeds(k)) && (credits.enableVip ==> userId in users0)
    }

    ghost predicate ChatSound()
      reads `chat, `captions
    {
      |captions| == |chat| && forall k :: 0 <= k < |chat| ==> CaptionStands(job, chat, k, captions[k])
    }

    /** The archive ids and cache items belong to the parts delivered first, one to one. */
    ghost predicate ArchiveSound()
      reads `chat, `items, `copies, `archived, `allArchived
    {
      && |items| <= |chat| && items == ItemsOf(job, chat[..|items|])
      && |copies| == |items| && archived == Present(copies)
      && (allArchived <==> forall k :: 0 <= k < |copies| ==> copies[k].Some?)
    }

    /** The sizes to be charged are those of the parts delivered first; the bandwidth booked
        lags behind by at most one of them. */
    ghost predicate SizesSound()
      reads `chat, `recorded, `counted, credits`users
    {
      && credits.mbPerCredit > 0
      && |recorded| <= |chat| && recorded == SizesOf(chat[..|recorded|])
      && counted <= recorded && |recorded| <= |counted| + 1
      && credits.users == (if credits.enableVip then AddAll(users0, userId, counted) else users0)
    }

    /** What holds at every point where a run may end, failures included. */
    ghost predicate Sound()
      reads `chat, `captions, `items, `copies, `archived, `allArchived, `recorded, `counted, credits`users
    {
      ChatSound() && ArchiveSound() && SizesSound() && |items| <= |recorded| && |captions| == |chat|
    }

    /** Between two sends: everything in the chat is recorded. */
    ghost predicate Settled()
      reads `chat, `captions, `items, `copies, `archived, `allArchived, `recorded, `counted, credits`users
    {
      Sound() && |items| == |chat| == |recorded| && counted == recorded
    }

    constructor (job: Job, userId: int, credits: Credits.CreditsService, succeeds: nat -> bool)
      requires credits.mbPerCredit > 0
      ensures this.job == job && this.userId == userId && this.credits == credits && users0 == credits.users
      ensures this.succeeds == succeeds && Fresh()
    {
      this.job, this.userId, this.credits := job, userId, credits;
      users0 := credits.users;
      chat, captions, batches, recorded, archived, allArchived, items := [], [], [], [], [], true, [];
      editFailed, buffer, copies, counted := false, [], [], [];
      this.succeeds, calls := succeeds, 0;
    }

    /** A message arrives. */
    method Arrive(s: Slot, caption: string)
      requires Sound() && caption == SentCaption(job, s)
      modifies this`chat, this`captions
      ensures Sound() && chat == old(chat) + [s] && captions == old(captions) + [caption]
    {
      hide SentCaption, Label, Present, AddAll, ItemFor, SizesOf, ItemsOf;
      chat, captions := chat + [s], captions + [caption];
      assert chat[..|recorded|] == old(chat)[..|recorded|];
      assert chat[..|items|] == old(chat)[..|items|];
      forall k | 0 <= k < |chat| ensures CaptionStands(job, chat, k, captions[k]) {
        assert k < |old(chat)| ==> CaptionStands(job, old(chat), k, old(captions)[k]);
      }
    }

    /** `delivered_sizes.append` and `add_bandwidth_used`, which may raise. */
    method RecordSize(size: nat) returns (ok: bool)
      requires SizesSound() && counted == recorded && |recorded| < |chat| && size == chat[|recorded|].part.size
      modifies `recorded, `counted, `calls, credits`users
      ensures SizesSound() && recorded == old(recorded) + [size] && (ok ==> counted == recorded)
      ensures Smooth() ==> ok
    {
      Counting(users0, userId, recorded, size);
      recorded := recorded + [size];
      assert recorded == SizesOf(chat[..|recorded|]);
      UserStays(users0, userId, counted);
      var commits := Attempt();
      var error := credits.AddBandwidthUsed(userId, size, commits);
      if error.Some? {
        return false;
      }
      counted := recorded;
      ok := true;
    }

    /** `_archive_copy` and the cache item; only a cancellation gets out of the former. */
    method Archive(s: Slot) returns (ok: bool)
      requires ArchiveSound() && |items| < |chat| && s == chat[|items|]
      modifies `archived, `allArchived, `items, `copies, `calls
      ensures ArchiveSound() && |items| == |old(items)| + (if ok then 1 else 0)
      ensures Smooth() ==> ok
    {
      hide ItemFor, Present;
      ok := Attempt();
      if !ok {
        return;
      }
      var copy: Option<int> := *;
      CopyNoted(copies, copy);
      copies := copies + [copy];
      if copy.Some? {
        archived := archived + [copy.value];
      } else {
        allArchived := false;
      }
      assert copies[|copies| - 1] == copy;
      assert forall k :: 0 <= k < |old(copies)| ==> old(copies)[k] == copies[k];
      items := items + [ItemFor(job, s)];
      assert items == ItemsOf(job, chat[..|items|]);
      ok := true;
    }

    /** Everything between the arrival of a part and the next send; any step may raise. */
    method RecordPart() returns (ok: bool)
      requires Sound() && |items| == |recorded| < |chat| && counted == recorded
      modifies `recorded, `counted, `archived, `allArchived, `items, `copies, `calls, credits`users
      ensures Sound() && (ok ==> |items| == |recorded| && counted == recorded)
      ensures Smooth() ==> ok
      ensures |recorded| == |old(recorded)| + 1
    {
      hide CaptionStands, AddAll, Present, SizesOf, ItemsOf;
      var s := chat[|recorded|];
      ok := RecordSize(s.part.size);
      if ok {
        ok := Archive(s);
      }
    }

    /** `_edit_caption_quietly`: the caption is replaced, or the failure is only logged; only a
        cancellation gets out of it, before or after the edit took effect. */
    method EditCaption(k: nat, caption: string) returns (ok: bool)
      requires ChatSound() && k < |chat| && CaptionStands(job, chat, k, caption)
      modifies `captions, `editFailed, `calls
      ensures ChatSound()
      ensures Smooth() ==> ok && editFailed == old(editFailed)
      ensures (captions == old(captions)[k := caption] && editFailed == old(editFailed))
              || (captions == old(captions) && editFailed)
    {
      hide CaptionStands;
      var edited := Attempt();
      if !edited {
        editFailed := true;
      } else {
        captions := captions[k := caption];
      }
      ok := Attempt();
    }

    /** `_send_raw_split_notice_quietly`, after the parts of a file that is no video. */
    method SendNotice(g: nat) returns (ok: bool)
      requires g < |job.groups|
      modifies `calls
      ensures |job.groups[g].parts| <= 1 || job.groups[g].kind == VIDEO || Smooth() ==> ok
    {
      if |job.groups[g].parts| <= 1 || job.groups[g].kind == VIDEO {
        return true;
      }
      ok := Attempt();
    }

    ghost predicate AllStanding()
      reads `chat, `captions, `editFailed
    {
      editFailed || Standing(job, chat, captions)
    }

    /** `_send_album_batch`: as one album, or one by one if the album is rejected. */
    method SendAlbumBatch(batch: seq<Slot>, captionOnLast: bool) returns (ok: bool)
      requires Sound() && 0 < |batch|
      requires CaptionsOf(job, batch) == BatchCaptions(job, batch, captionOnLast)
      modifies `chat, `captions, `calls
      ensures Sound() && |old(chat)| <= |chat| <= |old(chat)| + |batch|
      ensures Smooth() ==> ok
      ensures chat == old(chat) + batch[..|chat| - |old(chat)|]
      ensures captions == old(captions) + CaptionsOf(job, batch)[..|chat| - |old(chat)|]
      ensures ok ==> |chat| == |old(chat)| + |batch|
    {
      hide Sound, SentCaption, Signature;
      var batchCaptions := seq(|batch|, _ => "");
      if captionOnLast {
        batchCaptions := batchCaptions[|batch| - 1 := Signature(job, batch[|batch| - 1])];
      }
      var accepted := Attempt();
      for i := 0 to |batch|
        invariant Sound() && chat == old(chat) + batch[..i]
        invariant captions == old(captions) + CaptionsOf(job, batch)[..i]
      {
        if !accepted {
          ok := Attempt();
          if !ok {
            return;
          }
        }
        assert batchCaptions[i] == BatchCaptions(job, batch, captionOnLast)[i] == SentCaption(job, batch[i]);
        Arrive(batch[i], batchCaptions[i]);
        assert batch[..i + 1] == batch[..i] + [batch[i]];
        assert CaptionsOf(job, batch)[..i + 1] == CaptionsOf(job, batch)[..i] + [SentCaption(job, batch[i])];
      }
      ok := true;
    }

    /** The bookkeeping for the messages of one album. */
    method RecordBatch(n: nat) returns (ok: bool)
      requires Sound() && |items| == |recorded| && counted == recorded && |chat| == |recorded| + n
      modifies `recorded, `counted, `archived, `allArchived, `items, `copies, `calls, credits`users
      ensures Smooth() ==> ok
      ensures Sound() && (ok ==> Settled()) && |recorded| >= |old(recorded)|
    {
      hide ChatSound, ArchiveSound, SizesSound;
      for i := 0 to n
        invariant Sound() && |items| == |recorded| && counted == recorded && |chat| == |recorded| + n - i
        invariant |recorded| >= |old(recorded)|
      {
        ok := RecordPart();
        if !ok {
          return false;
        }
      }
      ok := true;
    }

    /** One round of `flush_album`: an album out and on record. */
    method DeliverAlbum(batch: seq<Slot>, captionOnLast: bool) returns (ok: bool)
      requires Settled() && AllStanding() && 0 < |batch| <= 10
      requires CaptionsOf(job, batch) == BatchCaptions(job, batch, captionOnLast)
      requires forall i :: 0 <= i < |batch| ==> StandingCaption(job, batch[i]) == SentCaption(job, batch[i])
      modifies `chat, `captions, `batches, `recorded, `counted, `archived, `allArchived, `items, `copies, `calls, credits`users
      ensures Smooth() ==> ok
      ensures Sound() && |chat| <= |recorded| + 10
      ensures |old(chat)| <= |chat| <= |old(chat)| + |batch| && chat == old(chat) + batch[..|chat| - |old(chat)|]
      ensures ok ==> Settled() && AllStanding() && chat == old(chat) + batch
      ensures batches == if ok then old(batches) + [Album(batch, captionOnLast)] else old(batches)
    {
      hide ChatSound, ArchiveSound, SizesSound, SentCaption, StandingCaption, Standing, CaptionsOf, BatchCaptions;
      ok := SendAlbumBatch(batch, captionOnLast);
      if ok {
        assert batch[..|batch|] == batch && chat == old(chat) + batch;
        WholeCaptions(job, batch);
        assert captions == old(captions) + CaptionsOf(job, batch);
        StandingGrows(job, old(chat), old(captions), batch);
        ok := RecordBatch(|batch|);
        if ok {
          batches := batches + [Album(batch, captionOnLast)];
        }
      }
    }

    /** `flush_album` before group `g`: albums of ten until the buffer is empty. */
    method FlushAlbum(final: bool, ghost g: nat) returns (ok: bool)
      requires Settled() && AllStanding() && Buffered(job, g, buffer) && (final <==> g == |job.groups|)
      modifies this, credits`users
      ensures (Smooth() ==> ok) && editFailed == old(editFailed)
      ensures Sound() && |chat| <= |recorded| + 10
      ensures |old(chat)| <= |chat| <= |old(chat)| + |old(buffer)|
      ensures chat == old(chat) + old(buffer)[..|chat| - |old(chat)|]
      ensures ok ==> Settled() && AllStanding() && chat == old(chat) + old(buffer) && buffer == []
      ensures ok ==> batches == old(batches) + Albums(old(buffer), final)
    {
      hide Sound, SentCaption, StandingCaption, Eligible, Buffered, Albums, LastGroup, AllStanding, CaptionsOf, BatchCaptions;
      var pending := buffer;
      buffer := [];
      ghost var done: seq<Batch> := [];
      var start := 0;
      while start < |pending|
        invariant start <= |pending| && buffer == [] && editFailed == old(editFailed)
        invariant Settled() && AllStanding()
        invariant chat == old(chat) + pending[..start]
        invariant batches == old(batches) + done
        invariant done + Albums(pending[start..], final) == Albums(pending, final)
      {
        var end := Min(start + 10, |pending|);
        var batch := pending[start..end];
        var isLastBatch := final && end == |pending|;
        BatchCaptioned(job, g, pending, start, end, final);
        AlbumStands(job, g, pending, start, end);
        ghost var before := chat;
        ok := DeliverAlbum(batch, isLastBatch);
        if !ok {
          ChunkAdded(old(chat), pending, start, end, |chat| - |before|);
          return false;
        }
        AlbumsChunk(pending, start, end, final, done);
        ChunkAdded(old(chat), pending, start, end, |batch|);
        done := done + [Album(batch, isLastBatch)];
        start := end;
      }
      assert pending[start..] == [];
      AlbumsOfNone(final);
      ok := true;
    }

    /** A newly sent part: message, records, and the one before it drops to its label. */
    method DeliverPart(s: Slot, previous: Option<nat>) returns (ok: bool)
      requires Settled() && NewestSigned(previous.Some?) && !Eligible(job, s.group)
      requires previous.Some? ==> previous.value + 1 == |chat| && chat[previous.value].g == s.g
                                  && chat[previous.value].index < TotalParts(chat[previous.value])
      modifies `chat, `captions, `batches, `recorded, `counted, `archived, `allArchived, `items, `copies, `editFailed, `calls, credits`users
      ensures Smooth() ==> ok && editFailed == old(editFailed)
      ensures Sound() && |chat| <= |recorded| + 10 && |old(chat)| <= |chat| && chat <= old(chat) + [s]
      ensures batches == if ok then old(batches) + [Single(s)] else old(batches)
      ensures ok ==> Settled() && NewestSigned(true) && chat == old(chat) + [s]
    {
      hide ChatSound, ArchiveSound, SizesSound, SentCaption, StandingCaption, Standing, Label, Eligible, Signature;
      hide CaptionStands, Captions.WithPartLabel, TotalParts;
      ok := Attempt();
      if !ok {
        return;
      }
      CaptionSent(job, s);
      var above := Label(job, s);
      var caption := if above == "" then Signature(job, s) else Captions.WithPartLabel(above, Signature(job, s));
      Arrive(s, caption);
      assert chat[..|old(chat)|] == old(chat) && captions[..|old(chat)|] == old(captions);
      ok := RecordPart();
      if !ok {
        return false;
      }
      if previous.Some? {
        var k := previous.value;
        assert chat[k] == old(chat)[k];
        LabelMayStand(job, chat, k);
        ok := EditCaption(k, Label(job, chat[k]));
        if !ok {
          return false;
        }
        EditedStands(job, old(chat), old(captions), k);
        assert editFailed || captions[..|old(chat)|] == old(captions)[k := Label(job, chat[k])];
      }
      batches := batches + [Single(s)];
    }

    /** Everything stands but the newest part, which still carries the whole signature. */
    ghost predicate NewestSigned(newest: bool)
      reads `chat, `captions, `editFailed
    {
      if !newest then AllStanding()
      else
        && |captions| == |chat| && chat != []
        && captions[|chat| - 1] == SentCaption(job, chat[|chat| - 1])
        && (editFailed || Standing(job, chat[..|chat| - 1], captions[..|chat| - 1]))
    }

    lemma NoNewest()
      ensures NewestSigned(false) <==> AllStanding()
    {
    }

    lemma AllStandNow()
      requires NewestSigned(true) && chat != [] && chat[|chat| - 1].index == TotalParts(chat[|chat| - 1])
      ensures AllStanding()
    {
      hide Standing, SentCaption, TotalParts;
      NewestStands(job, chat, captions);
    }

    lemma SettledIsSound()
      requires Settled()
      ensures Sound() && |chat| <= |recorded|
    {
    }

    /** The parts of one group that travels outside albums. */
    method SendGroup(g: nat) returns (ok: bool)
      requires Settled() && AllStanding() && g < |job.groups| && !Eligible(job, job.groups[g])
      modifies `chat, `captions, `batches, `recorded, `counted, `archived, `allArchived, `items, `copies, `editFailed, `calls, credits`users
      ensures Smooth() ==> ok && editFailed == old(editFailed)
      ensures Sound() && |chat| <= |recorded| + 10 && chat <= old(chat) + GroupSlots(job, g) && |old(chat)| <= |chat|
      ensures ok ==> Settled() && AllStanding() && chat == old(chat) + GroupSlots(job, g)
      ensures ok ==> batches == old(batches) + Singles(GroupSlots(job, g))
    {
      hide Sound, Label, Eligible, Standing, StandingCaption, SentCaption, GroupSlots, Singles, TotalParts;
      hide NewestSigned, AllStanding, Settled, Smooth;
      NoNewest();
      var slots := GroupSlots(job, g);
      WholeSingles(slots);
      var previous: Option<nat> := None;
      for j := 0 to |slots|
        invariant Settled() && chat == old(chat) + slots[..j]
        invariant Smooth() ==> editFailed == old(editFailed)
        invariant NewestSigned(j > 0)
        invariant batches == old(batches) + Singles(slots)[..j]
        invariant previous == if j > 0 && Label(job, slots[j - 1]) != "" then Some(|chat| - 1) else None
      {
        SlotOfGroup(job, g, j);
        if j > 0 {
          SlotOfGroup(job, g, j - 1);
        }
        assert slots[..j + 1] == slots[..j] + [slots[j]];
        NextSingle(slots, j);
        ok := DeliverPart(slots[j], previous);
        if !ok {
          assert chat <= old(chat) + slots[..j + 1];
          return false;
        }
        previous := if Label(job, slots[j]) != "" then Some(|chat| - 1) else None;
      }
      assert slots[..|slots|] == slots;
      if slots != [] {
        SlotOfGroup(job, g, |slots| - 1);
        AllStandNow();
      } else {
        NoNewest();
      }
      SettledIsSound();
      ok := SendNotice(g);
    }

    ghost predicate Fresh()
      reads this, credits`users
    {
      Settled() && chat == [] && captions == [] && buffer == [] && batches == [] && !editFailed && users0 == credits.users
    }

    /** The state of the loop when group `g` is next. */
    ghost predicate AtGroup(g: nat)
      reads this, credits`users
    {
      && Settled() && AllStanding() && Buffered(job, g, buffer)
      && chat + buffer == SlotsUpTo(job, g) && batches + PlanFrom(job, g, buffer) == Plan(job)
    }

    method BufferGroup(g: nat)
      requires g < |job.groups| && AtGroup(g) && Eligible(job, job.groups[g])
      modifies `buffer
      ensures AtGroup(g + 1)
    {
      hide Sound, Standing, Eligible, GroupSlots, Albums, Singles, SlotsUpTo;
      BufferGrows(job, g, buffer);
      Longer(job, g, chat, buffer);
      EligibleIsOne(job, g);
      buffer := buffer + [Slot(g, job.groups[g], job.groups[g].parts[0], 1)];
    }

    method SendOutsideAlbums(g: nat) returns (ok: bool)
      requires g < |job.groups| && AtGroup(g) && !Eligible(job, job.groups[g])
      modifies this, credits`users
      ensures Smooth() ==> ok && editFailed == old(editFailed)
      ensures Sound() && |chat| <= |recorded| + 10 && chat <= AllSlots(job)
      ensures ok ==> AtGroup(g + 1)
    {
      hide Sound, Standing, Eligible, GroupSlots, Albums, Singles, SlotsUpTo, AllSlots, Buffered, Plan;
      ghost var sent, held, out := chat, buffer, batches;
      PlanOutside(job, g, buffer);
      ok := FlushAlbum(false, g);
      if !ok {
        CutShort(job, g, sent, held, chat);
        return false;
      }
      ok := SendGroup(g);
      CutShortInGroup(job, g, chat);
      if ok {
        Longer(job, g, sent, held);
        NothingBuffered(job, g + 1);
        Rebracket(out, Albums(held, false), Singles(GroupSlots(job, g)), PlanFrom(job, g + 1, []));
      }
    }

    /** The upload loop: false when an exception got out of it. */
    method Upload() returns (completed: bool)
      requires Fresh()
      modifies this, credits`users
      ensures Smooth() ==> completed && !editFailed
      ensures Sound() && |chat| <= |recorded| + 10 && chat <= AllSlots(job)
      ensures completed ==> Settled() && AllStanding() && chat == AllSlots(job) && batches == Plan(job)
    {
      hide Sound, Standing, Eligible, GroupSlots, Albums, Singles, SlotsUpTo;
      NothingYet(job);
      for g := 0 to |job.groups|
        invariant AtGroup(g) && (Smooth() ==> !editFailed)
      {
        if Eligible(job, job.groups[g]) {
          BufferGroup(g);
        } else {
          completed := SendOutsideAlbums(g);
          if !completed {
            return false;
          }
        }
      }
      ghost var sent, held := chat, buffer;
      completed := FlushAlbum(true, |job.groups|);
      CutShort(job, |job.groups|, sent, held, chat);
    }

    /** `use_quota_dynamic` for what was recorded; a failure is only logged. */
    method Charge() returns (charged: bool)
      requires SizesSound()
      requires credits.users == Billed(credits.enableVip, users0, userId, counted, [], credits.mbPerCredit)
      modifies `calls, credits`users
      ensures credits.users == Billed(credits.enableVip, users0, userId, counted,
                                      if charged then recorded else [], credits.mbPerCredit)
      ensures charged <==> !credits.enableVip || (userId in old(credits.users) && succeeds(old(calls)))
      ensures calls == old(calls) + 1
    {
      hide AddAll, SizesOf;
      var commits := Attempt();
      var r := credits.UseQuotaDynamic(userId, recorded, commits);
      charged := r.Ok?;
    }

    /** Subtitles are sent and archived like media, but never recorded or charged. */
    method SendSubtitles(names: seq<string>) returns (ids: seq<int>, sent: seq<string>, allArchived: bool)
      modifies `calls
      ensures |ids| == |sent| && (allArchived ==> sent == names) && calls >= old(calls)
    {
      ids, sent, allArchived := [], [], true;
      for i := 0 to |names|
        invariant |ids| == |sent| && (allArchived ==> sent == names[..i]) && calls >= old(calls)
      {
        var ok := Attempt();
        var copy: Option<int> := *;
        if ok && copy.Some? {
          ids, sent := ids + [copy.value], sent + [names[i]];
        } else {
          allArchived := false;
        }
      }
    }

    /** Subtitles and the cache row, after every part was delivered. */
    method Finish(store: VideoCacheStore, key: Option<string>, archive: Option<Chat>, subtitles: seq<string>,
                  description: Option<string>, trimmed: bool)
      returns (stored: Option<Row>, subtitlesArchived: bool)
      requires ArchiveSound() && chat == AllSlots(job) && |items| == |chat|
      modifies `calls, store
      ensures calls >= old(calls)
      ensures stored.None? ==> store.rows == old(store.rows)
      ensures stored.Some? ==> key.Some? && archive.Some? && !trimmed && store.rows == old(store.rows)[key.value := stored.value]
      ensures stored.Some? ==> WellStored(job, archive.value, archived, description, subtitles, stored.value)
      ensures Smooth() ==> (stored.Some? <==> CacheWanted(key, archive, trimmed) && subtitlesArchived)
    {
      hide Present, ItemsOf, AllSlots, Encode, DecodeEntry, WellStored;
      stored := None;
      var ids, names;
      ids, names, subtitlesArchived := SendSubtitles(subtitles);
      var ok := Attempt();
      if ok && key.Some? && archive.Some? && chat != [] && allArchived && subtitlesArchived && !trimmed {
        AllPresent(copies);
        store.Put(key.value, archive.value, archived, job.title, items, Cut(description), ids, names);
        stored := Some(store.rows[key.value]);
        StoredWell(job, archive.value, archived, items, description, ids, names, chat);
      }
    }

    predicate CacheWanted(key: Option<string>, archive: Option<Chat>, trimmed: bool)
      reads `chat, `allArchived
    {
      key.Some? && archive.Some? && chat != [] && allArchived && !trimmed
    }

    /** After the upload: charge and cache a complete delivery; charge for what was recorded of
        one that broke off, or whose first charge failed. */
    method Close(completed: bool, store: VideoCacheStore, key: Option<string>, archive: Option<Chat>, subtitles: seq<string>,
                 description: Option<string>, trimmed: bool)
      returns (charged: bool, stored: Option<Row>, subtitlesArchived: bool)
      requires SizesSound() && (completed ==> ArchiveSound() && chat == AllSlots(job) && |items| == |chat|)
      requires credits.users == Billed(credits.enableVip, users0, userId, counted, [], credits.mbPerCredit)
      requires credits.enableVip && userId in users0 ==> userId in credits.users
      modifies `calls, credits`users, store
      ensures charged ==> completed || recorded != []
      ensures credits.users == Billed(credits.enableVip, users0, userId, counted,
                                      if charged then recorded else [], credits.mbPerCredit)
      ensures stored.None? ==> store.rows == old(store.rows)
      ensures stored.Some? ==> completed && key.Some? && archive.Some? && !trimmed
                               && store.rows == old(store.rows)[key.value := stored.value]
      ensures stored.Some? ==> WellStored(job, archive.value, archived, description, subtitles, stored.value)
      ensures Smooth() && completed ==> charged && (stored.Some? <==> CacheWanted(key, archive, trimmed) && subtitlesArchived)
      ensures credits.enableVip && userId in users0 && recorded != [] && !charged ==>
                calls >= 1 && !succeeds(calls - 1) && (completed ==> exists k :: 0 <= k < calls - 1 && !succeeds(k))
    {
      hide AddAll, Present, ItemsOf, SizesOf, AllSlots, Encode, Billed, WellStored;
      charged, stored, subtitlesArchived := false, None, false;
      UserStays(users0, userId, counted);
      ghost var first := calls;
      if completed {
        charged := Charge();
        stored, subtitlesArchived := Finish(store, key, archive, subtitles, description, trimmed);
      }
      if recorded != [] && !charged {
        charged := Charge();
      }
      assert credits.enableVip && userId in users0 && completed && !charged ==> !succeeds(first);
    }

    /** `run` from the upload phase on, with every failure its calls can produce. `charged`
        tells whether a charge took effect, `stored` the row that was written to the cache.
        Without failures everything is delivered, charged and, if wanted, stored; a user with
        a row goes uncharged only if every charge that was due failed. */
    method Run(store: VideoCacheStore, key: Option<string>, archive: Option<Chat>, subtitles: seq<string>,
               description: Option<string>, trimmed: bool)
      returns (completed: bool, charged: bool, stored: Option<Row>, subtitlesArchived: bool)
      requires Fresh()
      modifies this, credits`users, store
      ensures chat <= AllSlots(job)
      ensures |recorded| <= |chat| <= |recorded| + 10 && recorded == SizesOf(chat[..|recorded|])
      ensures completed ==> chat == AllSlots(job) && batches == Plan(job) && recorded == SizesOf(chat)
      ensures completed && !editFailed ==> Standing(job, chat, captions)
      ensures forall k :: 0 <= k < |chat| ==> |captions| == |chat| && CaptionStands(job, chat, k, captions[k])
      ensures counted <= recorded && |recorded| <= |counted| + 1
      ensures charged ==> completed || recorded != []
      ensures credits.users == Billed(credits.enableVip, old(credits.users), userId, counted,
                                      if charged then recorded else [], credits.mbPerCredit)
      ensures stored.None? ==> store.rows == old(store.rows)
      ensures stored.Some? ==> completed && key.Some? && archive.Some? && !trimmed
                               && store.rows == old(store.rows)[key.value := stored.value]
      ensures stored.Some? ==> WellStored(job, archive.value, archived, description, subtitles, stored.value)
      ensures Smooth() ==> completed && charged && !editFailed
      ensures Smooth() ==> (stored.Some? <==> key.Some? && archive.Some? && chat != [] && allArchived && !trimmed && subtitlesArchived)
      ensures credits.enableVip && userId in users0 && recorded != [] && !charged ==>
                calls >= 1 && !succeeds(calls - 1) && (completed ==> exists k :: 0 <= k < calls - 1 && !succeeds(k))
    {
      hide AddAll, Present, ItemsOf, SizesOf, CaptionStands, Standing, AllSlots, Plan, Encode, Billed, WellStored, Eligible;
      completed := Upload();
      assert completed ==> chat[..|recorded|] == chat;
      NothingCharged(credits.enableVip, users0, userId, counted, credits.mbPerCredit);
      UserStays(users0, userId, counted);
      charged, stored, subtitlesArchived := Close(completed, store, key, archive, subtitles, description, trimmed);
    }
  }

  lemma {:induction false} UserStays(users: map<int, Credits.User>, userId: int, sizes: seq<nat>)
    ensures userId in users <==> userId in AddAll(users, userId, sizes)
  {
    if sizes != [] {
      UserStays(users, userId, sizes[..|sizes| - 1]);
    }
  }

  function Cut(description: Option<string>): Option<string> {
    if description.Some? && description.value != "" then Some(description.value[..Min(4000, |description.value|)]) else None
  }

  /** A row whose message ids and items are those of the parts of the job, one to one, with the
      first 4000 characters of the description and an archived copy of every subtitle. */
  ghost predicate WellStored(job: Job, chat: Chat, archived: seq<int>, description: Option<string>, subtitles: seq<string>, row: Row) {
    && |archived| == |AllSlots(job)|
    && exists ids :: |ids| == |subtitles|
         && row == Encode(chat, archived, job.title, ItemsOf(job, AllSlots(job)),
                          if description.None? || description.value == "" then None
                          else if |description.value| <= 4000 then description else Some(description.value[..4000]),
                          ids, subtitles)
  }

  lemma StoredWell(job: Job, archive: Chat, archived: seq<int>, items: seq<CachedItem>, description: Option<string>,
                   ids: seq<int>, names: seq<string>, chat: seq<Slot>)
    requires chat == AllSlots(job) && |archived| == |items| == |chat| && items == ItemsOf(job, chat[..|items|]) && |ids| == |names|
    ensures WellStored(job, archive, archived, description, names, Encode(archive, archived, job.title, items, Cut(description), ids, names))
  {
    hide AllSlots, Encode, ItemsOf;
    assert chat[..|items|] == chat;
    assert description.Some? && |description.value| <= 4000 ==> description.value[..Min(4000, |description.value|)] == description.value;
  }

  /** The user table after the bandwidth of `counted` and one charge for `charged`. */
  function Billed(vip: bool, users: map<int, Credits.User>, userId: int, counted: seq<nat>, charged: seq<nat>, mb: nat):
    map<int, Credits.User>
    requires mb > 0
  {
    if !vip then users
    else
      var u := AddAll(users, userId, counted);
      if userId in u then u[userId := Credits.Deducted(u[userId], Credits.Price(charged, mb))] else u
  }

  lemma NothingCharged(vip: bool, users: map<int, Credits.User>, userId: int, counted: seq<nat>, mb: nat)
    requires mb > 0
    ensures Billed(vip, users, userId, counted, [], mb) == if vip then AddAll(users, userId, counted) else users
  {
  }

  lemma PlanOutside(job: Job, g: nat, buffer: seq<Slot>)
    requires g < |job.groups| && !Eligible(job, job.groups[g])
    ensures PlanFrom(job, g, buffer) == Albums(buffer, false) + Singles(GroupSlots(job, g)) + PlanFrom(job, g + 1, [])
  {
  }

  lemma NothingBuffered(job: Job, g: nat)
    requires g <= |job.groups|
    ensures Buffered(job, g, [])
  {
  }

  lemma NothingYet(job: Job)
    ensures Standing(job, [], []) && SlotsUpTo(job, 0) == []
  {
  }

  lemma Rebracket<T>(a: seq<T>, b: seq<T>, c: seq<T>, d: seq<T>)
    ensures a + b + c + d == a + (b + c + d)
  {
  }

  lemma Longer(job: Job, g: nat, sent: seq<Slot>, held: seq<Slot>)
    requires g < |job.groups| && sent + held == SlotsUpTo(job, g)
    ensures sent + (held + GroupSlots(job, g)) == SlotsUpTo(job, g + 1)
    ensures sent + held + GroupSlots(job, g) == SlotsUpTo(job, g + 1)
  {
    hide GroupSlots;
  }

  lemma EarlierIsPrefix(job: Job, g: nat)
    requires g <= |job.groups|
    ensures SlotsUpTo(job, g) <= AllSlots(job)
  {
    SlotsSplit(job, g);
  }

  lemma CutShort(job: Job, g: nat, sent: seq<Slot>, held: seq<Slot>, chat: seq<Slot>)
    requires g <= |job.groups| && sent + held == SlotsUpTo(job, g)
    requires |sent| <= |chat| <= |sent| + |held| && chat == sent + held[..|chat| - |sent|]
    ensures chat <= AllSlots(job)
  {
    hide SlotsUpTo;
    EarlierIsPrefix(job, g);
    assert chat <= sent + held;
  }

  lemma CutShortInGroup(job: Job, g: nat, chat: seq<Slot>)
    requires g < |job.groups| && chat <= SlotsUpTo(job, g) + GroupSlots(job, g)
    ensures chat <= AllSlots(job)
  {
    hide GroupSlots;
    EarlierIsPrefix(job, g + 1);
  }

  /** The last part of a group keeps the signature, so nothing is left to edit. */
  lemma NewestStands(job: Job, chat: seq<Slot>, captions: seq<string>)
    requires |captions| == |chat| && chat != []
    requires captions[|chat| - 1] == SentCaption(job, chat[|chat| - 1])
    requires chat[|chat| - 1].index == TotalParts(chat[|chat| - 1])
    ensures Standing(job, chat[..|chat| - 1], captions[..|chat| - 1]) ==> Standing(job, chat, captions)
  {
    hide StandingCaption, SentCaption;
    var n := |chat| - 1;
    LastStands(job, chat[n]);
    if Standing(job, chat[..n], captions[..n]) {
      forall k | 0 <= k < |chat| ensures captions[k] == StandingCaption(job, chat[k]) {
        assert k < n ==> captions[..n][k] == captions[k] && chat[..n][k] == chat[k];
      }
    }
  }

  lemma LastStands(job: Job, s: Slot)
    requires s.index == TotalParts(s)
    ensures StandingCaption(job, s) == SentCaption(job, s)
  {
    hide SentCaption, Label;
  }

  /** Slot `j` of a group is its part `j + 1`; it has a label exactly when there are several. */
  lemma SlotOfGroup(job: Job, g: nat, j: nat)
    requires g < |job.groups| && j < |GroupSlots(job, g)|
    ensures var slots := GroupSlots(job, g);
            && slots[j].g == g && slots[j].group == job.groups[g] && slots[j].index == j + 1
            && TotalParts(slots[j]) == |slots| && (Label(job, slots[j]) != "" <==> |slots| > 1)
  {
    hide Label;
    LabelsOfParts(job, GroupSlots(job, g)[j]);
  }

  lemma NextSingle(slots: seq<Slot>, j: nat)
    requires j < |slots|
    ensures |Singles(slots)| == |slots| && Singles(slots)[..j + 1] == Singles(slots)[..j] + [Single(slots[j])]
  {
  }

  lemma WholeSingles(slots: seq<Slot>)
    ensures |Singles(slots)| == |slots| && Singles(slots)[..|slots|] == Singles(slots)
  {
  }

  lemma CaptionSent(job: Job, s: Slot)
    requires !Eligible(job, s.group)
    ensures SentCaption(job, s) ==
              if Label(job, s) == "" then Signature(job, s) else Captions.WithPartLabel(Label(job, s), Signature(job, s))
  {
  }

  lemma EditedStands(job: Job, chat: seq<Slot>, captions: seq<string>, k: nat)
    requires |captions| == |chat| == k + 1 && chat[k].index < TotalParts(chat[k])
    ensures Standing(job, chat[..k], captions[..k]) ==> Standing(job, chat, captions[k := Label(job, chat[k])])
  {
    hide Label, SentCaption;
  }

  /** Exactly the parts of a split file have a label. */
  lemma LabelsOfParts(job: Job, s: Slot)
    ensures Label(job, s) == "" <==> TotalParts(s) == 1
  {
  }

  lemma AlbumsChunk(pending: seq<Slot>, start: nat, end: nat, final: bool, done: seq<Batch>)
    requires start < |pending| && end == Min(start + 10, |pending|)
    requires done + Albums(pending[start..], final) == Albums(pending, final)
    ensures done + [Album(pending[start..end], final && end == |pending|)] + Albums(pending[end..], final)
         == Albums(pending, final)
  {
    hide Albums;
    AlbumsStep(pending[start..], final);
    assert pending[start..][..end - start] == pending[start..end] && pending[start..][end - start..] == pending[end..];
  }

  lemma ChunkAdded<T>(before: seq<T>, pending: seq<T>, start: nat, end: nat, n: nat)
    requires start <= end <= |pending| && n <= end - start
    ensures before + pending[..start] + pending[start..end][..n] == before + pending[..start + n]
    ensures n == end - start ==> pending[start..end][..n] == pending[start..end] && start + n == end
  {
  }

  lemma AlbumsOfNone(final: bool)
    ensures Albums([], final) == []
  {
  }

  lemma AlbumsStep(items: seq<Slot>, final: bool)
    requires items != []
    ensures var n := Min(10, |items|);
            Albums(items, final) == [Album(items[..n], final && n == |items|)] + Albums(items[n..], final)
  {
    if |items| <= 10 {
      assert items[..|items|] == items && items[|items|..] == [];
    }
  }

  /** In a flush, the caption on the last item of the signed batch is what that part is meant
      to carry, and no other item carries one. */
  lemma BatchCaptioned(job: Job, g: nat, pending: seq<Slot>, start: nat, end: nat, final: bool)
    requires Buffered(job, g, pending) && (final <==> g == |job.groups|)
    requires start < end <= |pending|
    ensures CaptionsOf(job, pending[start..end]) == BatchCaptions(job, pending[start..end], final && end == |pending|)
  {
    hide Signature, Eligible;
    var batch := pending[start..end];
    forall i | 0 <= i < |batch|
      ensures SentCaption(job, batch[i]) == if final && end == |pending| && i == |batch| - 1 then Signature(job, batch[i]) else ""
    {
      assert batch[i] == pending[start + i];
      assert Eligible(job, batch[i].group);
      assert batch[i].g == g - |pending| + start + i;
    }
  }

  /** An album item is never edited, so it stands as it was sent. */
  lemma AlbumStands(job: Job, g: nat, pending: seq<Slot>, start: nat, end: nat)
    requires Buffered(job, g, pending) && start < end <= |pending|
    ensures forall i :: start <= i < end ==> StandingCaption(job, pending[i]) == SentCaption(job, pending[i])
  {
    hide SentCaption;
    forall i | start <= i < end ensures StandingCaption(job, pending[i]) == SentCaption(job, pending[i]) {
      assert Eligible(job, pending[i].group) && pending[i].index == 1;
    }
  }

  function BatchCaptions(job: Job, batch: seq<Slot>, captionOnLast: bool): seq<string> {
    seq(|batch|, i requires 0 <= i < |batch| =>
      if captionOnLast && i == |batch| - 1 then Signature(job, batch[i]) else "")
  }

  lemma Counting(users: map<int, Credits.User>, userId: int, sizes: seq<nat>, size: nat)
    ensures AddAll(users, userId, sizes + [size]) ==
              var before := AddAll(users, userId, sizes);
              if userId in before then before[userId := Credits.WithBandwidth(before[userId], size)] else before
  {
    assert (sizes + [size])[..|sizes|] == sizes;
  }

  lemma CopyNoted<T>(copies: seq<Option<T>>, copy: Option<T>)
    ensures Present(copies + [copy]) == if copy.Some? then Present(copies) + [copy.value] else Present(copies)
  {
    assert (copies + [copy])[..|copies|] == copies;
  }

  /** Both bandwidth counters grow by all the sizes, and nothing else in the row changes. */
  lemma {:induction false} BandwidthGrows(users: map<int, Credits.User>, userId: int, sizes: seq<nat>)
    requires userId in users
    ensures var u := users[userId];
            userId in AddAll(users, userId, sizes)
            && AddAll(users, userId, sizes)[userId] ==
                 u.(bandwidthUsed := u.bandwidthUsed + Credits.Total(sizes), totalBandwidth := u.totalBandwidth + Credits.Total(sizes))
  {
    if sizes != [] {
      BandwidthGrows(users, userId, sizes[..|sizes| - 1]);
    }
  }

  lemma {:induction false} OthersKeep(users: map<int, Credits.User>, userId: int, sizes: seq<nat>, other: int)
    requires other in users && other != userId
    ensures other in AddAll(users, userId, sizes) && AddAll(users, userId, sizes)[other] == users[other]
  {
    if sizes != [] {
      OthersKeep(users, userId, sizes[..|sizes| - 1], other);
    }
  }

  /** Wherever a run stops: the user pays min(balance, price of what was recorded), free
      credits first, or nothing at all; nobody else's row changes; and since the recorded
      sizes begin the list of parts, no more than the complete delivery would cost. */
  lemma BilledFairly(users: map<int, Credits.User>, userId: int, counted: seq<nat>, charged: seq<nat>, whole: seq<nat>, mb: nat)
    requires mb > 0 && userId in users && charged <= whole
    ensures var after := Billed(true, users, userId, counted, charged, mb);
            var u := users[userId];
            && userId in after
            && Credits.Spendable(after[userId]) == Credits.Spendable(u) - Min(Credits.Price(charged, mb), Credits.Spendable(u))
            && (after[userId].paid != u.paid ==> after[userId].free <= 0)
            && (charged == [] ==> after[userId].free == u.free && after[userId].paid == u.paid)
            && after[userId].bandwidthUsed == u.bandwidthUsed + Credits.Total(counted)
            && after[userId].totalBandwidth == u.totalBandwidth + Credits.Total(counted)
            && after[userId].blocked == u.blocked
            && Credits.Price(charged, mb) <= Credits.Price(whole, mb)
            && forall other :: other in users && other != userId ==> other in after && after[other] == users[other]
  {
    hide AddAll, Credits.Price;
    BandwidthGrows(users, userId, counted);
    Credits.DeductionIsFair(AddAll(users, userId, counted)[userId], Credits.Price(charged, mb));
    assert whole == charged + whole[|charged|..];
    Credits.TotalConcat(charged, whole[|charged|..]);
    Credits.PriceMonotone(charged, whole, mb);
    FreeOfCharge(mb);
    forall other | other in users && other != userId
      ensures var after := Billed(true, users, userId, counted, charged, mb); other in after && after[other] == users[other]
    {
      OthersKeep(users, userId, counted, other);
    }
  }

  lemma FreeOfCharge(mb: nat)
    requires mb > 0
    ensures Credits.Price([], mb) == 0
  {
  }

  // ------------------------------------------------------------ replay from the cache

  /** What `(title or "")` makes of the stored title; other JSON values raise later on. */
  function StoredTitle(title: Json): Option<Option<string>> {
    if title.JStr? then Some(Some(title.s)) else if Falsy(title) then Some(None) else None
  }

  const BASIC_ITEM := CachedItem("video", 0, 0, 0, 0, 0, None)

  /** `_cached_caption`; None when it raises. */
  function CachedCaption(e: CacheEntry, k: nat, url: string, titleLength: nat): Option<string> {
    var item := if k < |e.items| then e.items[k] else BASIC_ITEM;
    var above := if item.partLabel.Some? then item.partLabel.value else "";
    var title := StoredTitle(e.title);
    if title.None? then None
    else
      var full := Captions.UserCaption(item.kind, title.value, url, item.width, item.height, item.duration,
                                       titleLength, Captions.ReservedFor(above));
      if above == "" then Some(full)
      else if item.partIndex < item.partTotal then Some(above)
      else Some(Captions.WithPartLabel(above, full))
  }

  /** Replaying raises exactly when the stored title is neither a text nor empty, and a message
      without an item is shown as a video of which nothing is known. */
  lemma WhenAReplayRaises(e: CacheEntry, k: nat, url: string, titleLength: nat)
    ensures CachedCaption(e, k, url, titleLength).None? <==>
              match e.title
              case JBool(b) => b
              case JInt(i) => i != 0
              case JFloat(r) => r != 0.0
              case JArray(items) => items != []
              case JObject(fields) => fields != map[]
              case _ => false
    ensures k >= |e.items| && e.title.JStr? ==>
              CachedCaption(e, k, url, titleLength) ==
                Some(Captions.UserCaption("video", Some(e.title.s), url, 0, 0, 0, titleLength, 0))
  {
    hide Captions.UserCaption, Captions.WithPartLabel;
  }

  /** Probing finds one of four kinds. */
  predicate Probed(job: Job) {
    forall g :: 0 <= g < |job.groups| ==> job.groups[g].kind in {"video", "audio", "photo", "other"}
  }

  lemma {:induction false} SlotsAreParts(job: Job, n: nat)
    requires n <= |job.groups|
    ensures forall k :: 0 <= k < |SlotsUpTo(job, n)| ==>
              var s := SlotsUpTo(job, n)[k];
              s.g < n && s.group == job.groups[s.g] && 1 <= s.index <= |s.group.parts| && s.part == s.group.parts[s.index - 1]
  {
    if n > 0 {
      SlotsAreParts(job, n - 1);
    }
  }

  lemma CaptionNotEmpty(kind: string, title: Option<string>, url: string, width: int, height: int, duration: int,
                        titleLength: nat, reserved: nat)
    ensures Captions.UserCaption(kind, title, url, width, height, duration, titleLength, reserved) != ""
  {
    hide Captions.Html, Captions.ParseHtml, Captions.Shrunk, Captions.UserLayout, Captions.ShownTitle;
    var l := Captions.UserLayout(kind, width, height, duration);
    Captions.UserLayoutIsWellFormed(kind, width, height, duration);
    var r := Captions.Shrunk(l, Captions.ShownTitle(title, titleLength), url, Captions.CAPTION_LIMIT - reserved);
    Captions.LayoutStartsSolid(l, r.0, r.1);
    Captions.ParseNothing();
  }

  /** The item a stored row gives back for a part. */
  lemma ItemComesBack(job: Job, s: Slot)
    requires s.group.kind != ""
    ensures Normalized(ItemFor(job, s)) == ItemFor(job, s)
  {
  }

  predicate NamelessAlbumItem(job: Job, s: Slot) { Eligible(job, s.group) && !LastGroup(job, s) }

  /** One part: the replayed caption is the standing one exactly when the part is not an album
      item other than the last file of the request (those stand without a caption, but are
      replayed with the full signature). */
  lemma ReplayOfPart(job: Job, e: CacheEntry, k: nat, s: Slot)
    requires e.title == TextOrNull(job.title) && k < |e.items| && e.items[k] == ItemFor(job, s)
    requires 1 <= s.index <= TotalParts(s)
    ensures CachedCaption(e, k, job.url, job.titleLength) == Some(StandingCaption(job, s)) <==> !NamelessAlbumItem(job, s)
  {
    hide Captions.UserCaption, Captions.WithPartLabel, Captions.ReservedFor, Label, Eligible, LastGroup;
    LabelsOfParts(job, s);
    TitleComesBack(job.title);
    CaptionNotEmpty(s.group.kind, job.title, job.url, s.group.width, s.group.height, s.group.duration,
                    job.titleLength, Captions.ReservedFor(Label(job, s)));
    if Eligible(job, s.group) {
      EligibleIsWhole(job, s);
    }
  }

  lemma EligibleIsWhole(job: Job, s: Slot)
    requires Eligible(job, s.group)
    ensures TotalParts(s) == 1
  {
  }

  lemma TitleComesBack(title: Option<string>)
    ensures StoredTitle(TextOrNull(title)) == Some(title)
  {
  }

  ghost predicate ReplayIsFaithful(job: Job, e: CacheEntry) {
    && |e.messageIds| == |AllSlots(job)|
    && forall k :: 0 <= k < |AllSlots(job)| ==>
         CachedCaption(e, k, job.url, job.titleLength) == Some(StandingCaption(job, AllSlots(job)[k]))
  }

  /** Only the last file may travel in an album. */
  ghost predicate NoAlbumButTheLast(job: Job) {
    forall g :: 0 <= g < |job.groups| - 1 ==> !Eligible(job, job.groups[g])
  }

  lemma {:induction false} EveryGroupHasSlots(job: Job, g: nat, n: nat)
    requires g < n <= |job.groups| && job.groups[g].parts != []
    ensures exists k :: 0 <= k < |SlotsUpTo(job, n)| && SlotsUpTo(job, n)[k].g == g && SlotsUpTo(job, n)[k].group == job.groups[g]
  {
    if g == n - 1 {
      var k := |SlotsUpTo(job, n - 1)|;
      assert SlotsUpTo(job, n)[k] == GroupSlots(job, g)[0];
    } else {
      EveryGroupHasSlots(job, g, n - 1);
      var k :| 0 <= k < |SlotsUpTo(job, n - 1)| && SlotsUpTo(job, n - 1)[k].g == g && SlotsUpTo(job, n - 1)[k].group == job.groups[g];
      assert SlotsUpTo(job, n)[k] == SlotsUpTo(job, n - 1)[k];
    }
  }

  /** A row that a complete delivery stored, read back, replays exactly the captions left
      standing after that delivery if and only if no file but the last travelled in an album. */
  lemma ReplayEqualsDelivery(job: Job, chat: Chat, archived: seq<int>, description: Option<string>, subtitles: seq<string>,
                             row: Row, py: Python)
    requires Probed(job) && WellStored(job, chat, archived, description, subtitles, row)
    ensures DecodeEntry(row, py).Hit?
    ensures ReplayIsFaithful(job, DecodeEntry(row, py).entry) <==> NoAlbumButTheLast(job)
  {
    hide Encode, DecodeEntry, CachedCaption, StandingCaption, Eligible, SlotsUpTo, ItemFor;
    var slots := AllSlots(job);
    var shown := if description.None? || description.value == "" then None
                 else if |description.value| <= 4000 then description else Some(description.value[..4000]);
    var ids :| |ids| == |subtitles| && row == Encode(chat, archived, job.title, ItemsOf(job, slots), shown, ids, subtitles);
    DecodeUndoesEncode(chat, archived, job.title, ItemsOf(job, slots), shown, ids, subtitles, py);
    var e := DecodeEntry(row, py).entry;
    SlotsAreParts(job, |job.groups|);
    forall k | 0 <= k < |slots|
      ensures CachedCaption(e, k, job.url, job.titleLength) == Some(StandingCaption(job, slots[k]))
              <==> !NamelessAlbumItem(job, slots[k])
    {
      ItemComesBack(job, slots[k]);
      ReplayOfPart(job, e, k, slots[k]);
    }
    if NoAlbumButTheLast(job) {
      forall k | 0 <= k < |slots| ensures !NamelessAlbumItem(job, slots[k]) {
      }
    } else {
      var g :| 0 <= g < |job.groups| - 1 && Eligible(job, job.groups[g]);
      EligibleIsOne(job, g);
      EveryGroupHasSlots(job, g, |job.groups|);
      var k :| 0 <= k < |slots| && slots[k].g == g && slots[k].group == job.groups[g];
      assert NamelessAlbumItem(job, slots[k]);
    }
  }

  function TwoPhotos(): Job {
    var photo := Group(PHOTO, 640, 480, 0, false, [Part(1, "a.jpg", PHOTO)]);
    Job([photo, photo], None, "u", false, 0)
  }

  lemma TwoSlots()
    ensures |AllSlots(TwoPhotos())| == 2
  {
    var job := TwoPhotos();
    assert SlotsUpTo(job, 0) == [];
    assert |SlotsUpTo(job, 1)| == 1;
    assert |SlotsUpTo(job, 2)| == 2;
  }

  /** Two photos: the row their delivery stores replays a caption the first photo never had. */
  lemma TwoPhotosReplay(py: Python) returns (row: Row)
    ensures WellStored(TwoPhotos(), ChatId(1), [10, 11], None, [], row)
    ensures DecodeEntry(row, py).Hit? && !ReplayIsFaithful(TwoPhotos(), DecodeEntry(row, py).entry)
  {
    hide Encode, DecodeEntry, ReplayIsFaithful, AllSlots;
    var job := TwoPhotos();
    TwoSlots();
    var none: seq<int> := [];
    row := Encode(ChatId(1), [10, 11], job.title, ItemsOf(job, AllSlots(job)), None, none, []);
    assert Eligible(job, job.groups[0]);
    ReplayEqualsDelivery(job, ChatId(1), [10, 11], None, [], row, py);
  }
}

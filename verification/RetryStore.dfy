/** The retry buttons on offer (telegram/retry.py): two maps that must agree, a bound, and
    expiry by age. */
module RetryStore {
  import opened Common

  /** Ten hexadecimal digits, read as a number. */
  type Id = nat

  datatype MsgKey = MsgKey(chatId: int, messageId: int)

  datatype Context = Context(id: Id, msg: MsgKey, payload: int, createdAt: int)

  /** Times are clock ticks; `ttl` is the age an entry may reach. */
  datatype Settings = Settings(ttl: int, maxEntries: nat)

  /** `entries` is the ordered dictionary, oldest key first; `byMsg` the second index. */
  datatype Store = Store(entries: seq<Context>, byMsg: map<MsgKey, Id>)

  function Kept(entries: seq<Context>, keep: Context -> bool): seq<Context> {
    if entries == [] then []
    else Kept(entries[..|entries| - 1], keep) + if keep(entries[|entries| - 1]) then [entries[|entries| - 1]] else []
  }

  function NotId(id: Id): Context -> bool { (c: Context) => c.id != id }

  /** `_entries.pop(id, None)`. */
  function Popped(entries: seq<Context>, id: Id): seq<Context> { Kept(entries, NotId(id)) }

  function Lookup(entries: seq<Context>, id: Id): Option<Context> {
    if entries == [] then None
    else if entries[|entries| - 1].id == id then Some(entries[|entries| - 1])
    else Lookup(entries[..|entries| - 1], id)
  }

  /** `_entries[ctx.retry_id] = ctx`: a key in use keeps its place in the order. */
  function Assigned(entries: seq<Context>, c: Context): seq<Context> {
    if Lookup(entries, c.id).None? then entries + [c]
    else seq(|entries|, i requires 0 <= i < |entries| => if entries[i].id == c.id then c else entries[i])
  }

  /** An entry leaves both indexes; the second one only if it still leads to it. */
  function Dropped(s: Store, c: Context): Store {
    Store(Popped(s.entries, c.id), if c.msg in s.byMsg && s.byMsg[c.msg] == c.id then s.byMsg - {c.msg} else s.byMsg)
  }

  function DroppedAll(s: Store, cs: seq<Context>): Store {
    if cs == [] then s else Dropped(DroppedAll(s, cs[..|cs| - 1]), cs[|cs| - 1])
  }

  predicate Expired(cfg: Settings, c: Context, now: int) { now - c.createdAt > cfg.ttl }

  function ExpiredAt(cfg: Settings, now: int): Context -> bool { (c: Context) => Expired(cfg, c, now) }

  /** `_evict_expired`. */
  function Evicted(cfg: Settings, s: Store, now: int): Store {
    DroppedAll(s, Kept(s.entries, ExpiredAt(cfg, now)))
  }

  /** The message's earlier entry goes first. */
  function Replaced(s: Store, msg: MsgKey): Store {
    if msg in s.byMsg then Store(Popped(s.entries, s.byMsg[msg]), s.byMsg - {msg}) else s
  }

  /** `popitem(last=False)` until the bound holds. */
  function Bounded(s: Store, max: nat): Store
    decreases |s.entries|
  {
    if |s.entries| > max then Bounded(Store(s.entries[1..], s.byMsg - {s.entries[0].msg}), max) else s
  }

  function Put(cfg: Settings, s: Store, c: Context): Store {
    var u := Replaced(Evicted(cfg, s, c.createdAt), c.msg);
    Bounded(Store(Assigned(u.entries, c), u.byMsg[c.msg := c.id]), cfg.maxEntries)
  }

  // ------------------------------------------------------------ the invariant

  ghost predicate Linked(s: Store, c: Context) { c.msg in s.byMsg && s.byMsg[c.msg] == c.id }

  /** Each entry is found under its message, and each message leads to an entry of its own. */
  ghost predicate Inverse(s: Store) {
    && (forall c :: c in s.entries ==> Linked(s, c))
    && (forall m :: m in s.byMsg ==> HasEntry(s, m))
  }

  ghost predicate HasEntry(s: Store, m: MsgKey)
    requires m in s.byMsg
  {
    exists c :: c in s.entries && c.msg == m && c.id == s.byMsg[m]
  }

  ghost predicate DistinctIds(entries: seq<Context>) {
    forall i, j :: 0 <= i < j < |entries| ==> entries[i].id != entries[j].id
  }

  /** Oldest first, none from the future. */
  ghost predicate ByAge(entries: seq<Context>, now: int) {
    && (forall i, j :: 0 <= i < j < |entries| ==> entries[i].createdAt <= entries[j].createdAt)
    && (forall i :: 0 <= i < |entries| ==> entries[i].createdAt <= now)
  }

  ghost predicate Good(cfg: Settings, s: Store, now: int) {
    Inverse(s) && DistinctIds(s.entries) && ByAge(s.entries, now) && |s.entries| <= cfg.maxEntries
  }

  lemma {:induction false} KeptMembers(entries: seq<Context>, keep: Context -> bool)
    ensures forall c :: c in Kept(entries, keep) <==> c in entries && keep(c)
    ensures |Kept(entries, keep)| <= |entries|
  {
    if entries != [] {
      var init, last := entries[..|entries| - 1], entries[|entries| - 1];
      KeptMembers(init, keep);
      assert entries == init + [last];
    }
  }

  lemma {:induction false} KeptOrder(entries: seq<Context>, keep: Context -> bool, now: int)
    ensures DistinctIds(entries) ==> DistinctIds(Kept(entries, keep))
    ensures ByAge(entries, now) ==> ByAge(Kept(entries, keep), now)
  {
    if entries != [] {
      var init, last := entries[..|entries| - 1], entries[|entries| - 1];
      KeptOrder(init, keep, now);
      KeptMembers(init, keep);
      var kept := Kept(init, keep);
      forall i | 0 <= i < |kept|
        ensures DistinctIds(entries) ==> kept[i].id != last.id
        ensures ByAge(entries, now) ==> kept[i].createdAt <= last.createdAt
      {
        assert kept[i] in init;
        var j :| 0 <= j < |init| && init[j] == kept[i];
        assert entries[j] == kept[i];
      }
    }
  }

  lemma {:induction false} KeptWhole(entries: seq<Context>, keep: Context -> bool)
    requires forall c :: c in entries ==> keep(c)
    ensures Kept(entries, keep) == entries
  {
    if entries != [] {
      KeptWhole(entries[..|entries| - 1], keep);
    }
  }

  lemma SameEntry(entries: seq<Context>, a: Context, b: Context)
    requires DistinctIds(entries) && a in entries && b in entries && a.id == b.id
    ensures a == b
  {
    var i :| 0 <= i < |entries| && entries[i] == a;
    var j :| 0 <= j < |entries| && entries[j] == b;
  }

  lemma DroppedIsInverse(s: Store, c: Context)
    requires Inverse(s) && DistinctIds(s.entries) && c in s.entries
    ensures Inverse(Dropped(s, c)) && DistinctIds(Dropped(s, c).entries)
  {
    hide Kept;
    KeptMembers(s.entries, NotId(c.id));
    KeptOrder(s.entries, NotId(c.id), 0);
    var t := Dropped(s, c);
    assert Linked(s, c);
    forall d | d in t.entries ensures Linked(t, d) {
      assert d in s.entries && Linked(s, d);
    }
    forall m | m in t.byMsg ensures HasEntry(t, m) {
      assert HasEntry(s, m);
      var d :| d in s.entries && d.msg == m && d.id == s.byMsg[m];
      if d.id == c.id {
        SameEntry(s.entries, c, d);
      }
      assert d in t.entries;
    }
  }

  lemma DroppedMembers(s: Store, c: Context)
    requires DistinctIds(s.entries) && c in s.entries
    ensures forall d :: d in Dropped(s, c).entries <==> d in s.entries && d != c
  {
    hide Kept, DistinctIds;
    KeptMembers(s.entries, NotId(c.id));
    forall d | d in s.entries && d.id == c.id ensures d == c {
      SameEntry(s.entries, d, c);
    }
  }

  lemma LastIsNew(cs: seq<Context>)
    requires DistinctIds(cs) && cs != []
    ensures DistinctIds(cs[..|cs| - 1]) && cs[|cs| - 1] !in cs[..|cs| - 1]
    ensures forall c :: c in cs <==> c in cs[..|cs| - 1] || c == cs[|cs| - 1]
  {
    assert cs == cs[..|cs| - 1] + [cs[|cs| - 1]];
  }

  lemma {:induction false} DroppedAllIs(s: Store, cs: seq<Context>)
    requires Inverse(s) && DistinctIds(s.entries) && DistinctIds(cs) && forall c :: c in cs ==> c in s.entries
    ensures var t := DroppedAll(s, cs);
            && Inverse(t) && DistinctIds(t.entries)
            && (forall c :: c in t.entries <==> c in s.entries && c !in cs)
  {
    if cs != [] {
      hide Inverse, DistinctIds, Dropped;
      var init, last := cs[..|cs| - 1], cs[|cs| - 1];
      LastIsNew(cs);
      DroppedAllIs(s, init);
      DroppedIsInverse(DroppedAll(s, init), last);
      DroppedMembers(DroppedAll(s, init), last);
    }
  }

  lemma {:induction false} DroppedAllOrder(s: Store, cs: seq<Context>, now: int)
    requires ByAge(s.entries, now)
    ensures ByAge(DroppedAll(s, cs).entries, now) && |DroppedAll(s, cs).entries| <= |s.entries|
  {
    if cs != [] {
      hide Kept, ByAge;
      var u := DroppedAll(s, cs[..|cs| - 1]);
      DroppedAllOrder(s, cs[..|cs| - 1], now);
      KeptOrder(u.entries, NotId(cs[|cs| - 1].id), now);
      KeptMembers(u.entries, NotId(cs[|cs| - 1].id));
    }
  }

  /** Expiry removes exactly the entries that are too old, from both indexes. */
  lemma EvictedIsGood(cfg: Settings, s: Store, then': int, now: int)
    requires Good(cfg, s, then') && then' <= now
    ensures Good(cfg, Evicted(cfg, s, now), now)
    ensures forall c :: c in Evicted(cfg, s, now).entries <==> c in s.entries && now - c.createdAt <= cfg.ttl
  {
    hide Inverse, Kept, DroppedAll;
    var old' := Kept(s.entries, ExpiredAt(cfg, now));
    KeptMembers(s.entries, ExpiredAt(cfg, now));
    KeptOrder(s.entries, ExpiredAt(cfg, now), now);
    DroppedAllIs(s, old');
    DroppedAllOrder(s, old', now);
  }

  lemma ReplacedIsGood(cfg: Settings, s: Store, msg: MsgKey, now: int)
    requires Good(cfg, s, now)
    ensures var t := Replaced(s, msg);
            Good(cfg, t, now) && msg !in t.byMsg && (forall c :: c in t.entries <==> c in s.entries && c.msg != msg)
  {
    hide Kept;
    if msg in s.byMsg {
      assert HasEntry(s, msg);
      var c :| c in s.entries && c.msg == msg && c.id == s.byMsg[msg];
      DroppedIsInverse(s, c);
      KeptOrder(s.entries, NotId(c.id), now);
      KeptMembers(s.entries, NotId(c.id));
      assert Replaced(s, msg) == Dropped(s, c);
      forall d | d in s.entries && d.msg == msg ensures d == c {
        assert Linked(s, d);
        SameEntry(s.entries, c, d);
      }
    } else {
      forall c | c in s.entries ensures c.msg != msg {
        assert Linked(s, c);
      }
    }
  }

  // ------------------------------------------------------------ put

  predicate InUse(entries: seq<Context>, id: Id) { exists i :: 0 <= i < |entries| && entries[i].id == id }

  lemma {:induction false} LookupIs(entries: seq<Context>, id: Id)
    ensures Lookup(entries, id).Some? <==> InUse(entries, id)
    ensures Lookup(entries, id).Some? ==> Lookup(entries, id).value in entries && Lookup(entries, id).value.id == id
  {
    if entries != [] {
      LookupIs(entries[..|entries| - 1], id);
      if InUse(entries, id) && entries[|entries| - 1].id != id {
        var i :| 0 <= i < |entries| && entries[i].id == id;
        assert entries[..|entries| - 1][i].id == id;
      }
    }
  }

  lemma AddedIsGood(cfg: Settings, s: Store, c: Context)
    requires Good(cfg, s, c.createdAt) && c.msg !in s.byMsg && !InUse(s.entries, c.id)
    ensures var t := Store(s.entries + [c], s.byMsg[c.msg := c.id]);
            Inverse(t) && DistinctIds(t.entries) && ByAge(t.entries, c.createdAt)
  {
    var t := Store(s.entries + [c], s.byMsg[c.msg := c.id]);
    forall d | d in t.entries ensures Linked(t, d) {
      if d in s.entries {
        assert Linked(s, d);
      }
    }
    forall m | m in t.byMsg ensures HasEntry(t, m) {
      if m == c.msg {
        assert c in t.entries;
      } else {
        assert HasEntry(s, m);
        var d :| d in s.entries && d.msg == m && d.id == s.byMsg[m];
        assert d in t.entries;
      }
    }
  }

  lemma {:induction false} BoundedIsGood(s: Store, max: nat, now: int)
    requires Inverse(s) && DistinctIds(s.entries) && ByAge(s.entries, now)
    ensures var t := Bounded(s, max);
            && Inverse(t) && DistinctIds(t.entries) && ByAge(t.entries, now)
            && t.entries == s.entries[|s.entries| - Min(max, |s.entries|)..]
    decreases |s.entries|
  {
    if |s.entries| > max {
      var u := Store(s.entries[1..], s.byMsg - {s.entries[0].msg});
      OldestGone(s);
      BoundedIsGood(u, max, now);
    }
  }

  lemma OldestGone(s: Store)
    requires Inverse(s) && DistinctIds(s.entries) && s.entries != []
    ensures Inverse(Store(s.entries[1..], s.byMsg - {s.entries[0].msg}))
  {
    var first := s.entries[0];
    var t := Store(s.entries[1..], s.byMsg - {first.msg});
    assert Linked(s, first);
    forall d | d in t.entries ensures Linked(t, d) {
      assert d in s.entries && Linked(s, d);
      var i :| 0 <= i < |t.entries| && t.entries[i] == d;
      assert s.entries[i + 1] == d;
    }
    forall m | m in t.byMsg ensures HasEntry(t, m) {
      assert HasEntry(s, m);
      var d :| d in s.entries && d.msg == m && d.id == s.byMsg[m];
      var i :| 0 <= i < |s.entries| && s.entries[i] == d;
      assert t.entries[i - 1] == d;
    }
  }

  /** The entries a `put` starts from: alive, and not of the same message. */
  function Remaining(cfg: Settings, s: Store, c: Context): seq<Context> {
    Replaced(Evicted(cfg, s, c.createdAt), c.msg).entries
  }

  /** With a new id, `put` keeps everything: both maps stay each other's inverse, oldest first
      and within the bound, and what falls out is the oldest. */
  lemma PutIsGood(cfg: Settings, s: Store, then': int, c: Context)
    requires Good(cfg, s, then') && then' <= c.createdAt && !InUse(Remaining(cfg, s, c), c.id)
    ensures Good(cfg, Put(cfg, s, c), c.createdAt)
    ensures var all := Remaining(cfg, s, c) + [c];
            Put(cfg, s, c).entries == all[|all| - Min(cfg.maxEntries, |all|)..]
    ensures forall d :: d in Remaining(cfg, s, c) <==>
              d in s.entries && c.createdAt - d.createdAt <= cfg.ttl && d.msg != c.msg
  {
    hide Inverse, DistinctIds, ByAge, Evicted, Replaced;
    var e := Evicted(cfg, s, c.createdAt);
    EvictedIsGood(cfg, s, then', c.createdAt);
    ReplacedIsGood(cfg, e, c.msg, c.createdAt);
    var u := Replaced(e, c.msg);
    LookupIs(u.entries, c.id);
    AddedIsGood(cfg, u, c);
    BoundedIsGood(Store(u.entries + [c], u.byMsg[c.msg := c.id]), cfg.maxEntries, c.createdAt);
  }

  lemma AssignedIds(entries: seq<Context>, c: Context, x: Context)
    requires InUse(entries, c.id) && x in Assigned(entries, c) && x.id == c.id
    ensures x == c
  {
    LookupIs(entries, c.id);
    var i :| 0 <= i < |Assigned(entries, c)| && Assigned(entries, c)[i] == x;
  }

  lemma AssignedPlaces(entries: seq<Context>, c: Context)
    requires InUse(entries, c.id)
    ensures var a := Assigned(entries, c);
            |a| == |entries| && forall i :: 0 <= i < |a| ==> a[i] == if entries[i].id == c.id then c else entries[i]
  {
    LookupIs(entries, c.id);
  }

  /** Overwriting an entry of another message: that message leads to no entry of its own. */
  lemma OverwritingBreaks(u: Store, c: Context, d: Context)
    requires Inverse(u) && d in u.entries && d.id == c.id && d.msg != c.msg
    ensures !Inverse(Store(Assigned(u.entries, c), u.byMsg[c.msg := c.id]))
  {
    hide Assigned;
    var t := Store(Assigned(u.entries, c), u.byMsg[c.msg := c.id]);
    assert Linked(u, d);
    assert InUse(u.entries, c.id) by {
      var i :| 0 <= i < |u.entries| && u.entries[i] == d;
    }
    assert d.msg in t.byMsg && t.byMsg[d.msg] == c.id;
    if HasEntry(t, d.msg) {
      var x :| x in t.entries && x.msg == d.msg && x.id == t.byMsg[d.msg];
      AssignedIds(u.entries, c, x);
    }
  }

  lemma StaysWithinBound(cfg: Settings, s: Store, c: Context)
    requires |Remaining(cfg, s, c)| <= cfg.maxEntries && InUse(Remaining(cfg, s, c), c.id)
    ensures var u := Replaced(Evicted(cfg, s, c.createdAt), c.msg);
            Put(cfg, s, c) == Store(Assigned(u.entries, c), u.byMsg[c.msg := c.id])
  {
    hide Evicted, Replaced;
    LookupIs(Remaining(cfg, s, c), c.id);
  }

  lemma InverseLinks(s: Store, c: Context)
    requires Inverse(s) && c in s.entries
    ensures Linked(s, c)
  {
  }

  /** A random id that is still in use would break the pair of maps: the overwritten entry's
      message goes on leading to an entry that is no longer its own. The new entry stands at the
      place of the old one. */
  lemma PutWithUsedId(cfg: Settings, s: Store, then': int, c: Context)
    requires Good(cfg, s, then') && then' <= c.createdAt && InUse(Remaining(cfg, s, c), c.id)
    ensures !Inverse(Put(cfg, s, c))
    ensures var left, put := Remaining(cfg, s, c), Put(cfg, s, c).entries;
            |put| == |left| && forall i :: 0 <= i < |put| ==> put[i] == if left[i].id == c.id then c else left[i]
  {
    hide Evicted, Replaced, ByAge, DistinctIds, Inverse, Assigned, Lookup, Put, Bounded;
    AssignedPlaces(Remaining(cfg, s, c), c);
    EvictedIsGood(cfg, s, then', c.createdAt);
    ReplacedIsGood(cfg, Evicted(cfg, s, c.createdAt), c.msg, c.createdAt);
    var u := Replaced(Evicted(cfg, s, c.createdAt), c.msg);
    LookupIs(u.entries, c.id);
    var d := Lookup(u.entries, c.id).value;
    InverseLinks(u, d);
    StaysWithinBound(cfg, s, c);
    OverwritingBreaks(u, c, d);
  }

  /** Another message's live entry has the id. */
  ghost predicate Taken(cfg: Settings, s: Store, c: Context) {
    exists d :: d in s.entries && d.id == c.id && d.msg != c.msg && c.createdAt - d.createdAt <= cfg.ttl
  }

  lemma RemainingIs(cfg: Settings, s: Store, then': int, c: Context)
    requires Good(cfg, s, then') && then' <= c.createdAt
    ensures InUse(Remaining(cfg, s, c), c.id) <==> Taken(cfg, s, c)
  {
    hide Evicted, Replaced, ByAge, DistinctIds, Inverse;
    EvictedIsGood(cfg, s, then', c.createdAt);
    ReplacedIsGood(cfg, Evicted(cfg, s, c.createdAt), c.msg, c.createdAt);
    var left := Remaining(cfg, s, c);
    if InUse(left, c.id) {
      var i :| 0 <= i < |left| && left[i].id == c.id;
      assert left[i] in left;
    }
    if d :| d in s.entries && d.id == c.id && d.msg != c.msg && c.createdAt - d.createdAt <= cfg.ttl {
      var i :| 0 <= i < |left| && left[i] == d;
    }
  }

  /** `put` keeps the maps inverse exactly when the new id is not taken by a live entry of
      another message. */
  lemma PutKeepsIff(cfg: Settings, s: Store, then': int, c: Context)
    requires Good(cfg, s, then') && then' <= c.createdAt
    ensures Inverse(Put(cfg, s, c)) <==> !Taken(cfg, s, c)
  {
    hide Put, Inverse, Remaining, Taken;
    RemainingIs(cfg, s, then', c);
    if InUse(Remaining(cfg, s, c), c.id) {
      PutWithUsedId(cfg, s, then', c);
    } else {
      PutIsGood(cfg, s, then', c);
    }
  }

  /** Such a store: one entry, and a second message that draws the same id. */
  lemma TakenWitness()
    ensures var cfg, one := Settings(60, 10), Context(7, MsgKey(1, 1), 0, 0);
            var s := Store([one], map[one.msg := 7]);
            Good(cfg, s, 0) && !Inverse(Put(cfg, s, Context(7, MsgKey(1, 2), 0, 0)))
  {
    hide Put;
    var cfg, one := Settings(60, 10), Context(7, MsgKey(1, 1), 0, 0);
    var s := Store([one], map[one.msg := 7]);
    assert one in s.entries;
    assert HasEntry(s, one.msg);
    PutKeepsIff(cfg, s, 0, Context(7, MsgKey(1, 2), 0, 0));
  }

  // ------------------------------------------------------------ get and remove

  datatype Key = ById(id: Id) | ByMessage(msg: MsgKey)

  /** `get` on a store without expired entries. */
  function Got(s: Store, key: Key): Option<Context> {
    match key
    case ById(id) => Lookup(s.entries, id)
    case ByMessage(m) => if m in s.byMsg then Lookup(s.entries, s.byMsg[m]) else None
  }

  function Removed(s: Store, key: Key): Store {
    match key
    case ById(id) => if Lookup(s.entries, id).Some? then Dropped(s, Lookup(s.entries, id).value) else s
    case ByMessage(m) => Replaced(s, m)
  }

  /** Both routes to an entry agree, and removing it by either leaves the same good store. */
  lemma RoutesAgree(cfg: Settings, s: Store, now: int, c: Context)
    requires Good(cfg, s, now) && c in s.entries
    ensures Got(s, ById(c.id)) == Some(c) && Got(s, ByMessage(c.msg)) == Some(c)
    ensures Removed(s, ById(c.id)) == Removed(s, ByMessage(c.msg)) && Good(cfg, Removed(s, ById(c.id)), now)
    ensures forall d :: d in Removed(s, ById(c.id)).entries <==> d in s.entries && d != c
  {
    hide Kept, ByAge;
    assert Linked(s, c);
    LookupIs(s.entries, c.id);
    var i :| 0 <= i < |s.entries| && s.entries[i] == c;
    assert InUse(s.entries, c.id);
    SameEntry(s.entries, c, Lookup(s.entries, c.id).value);
    ReplacedIsGood(cfg, s, c.msg, now);
    DroppedMembers(s, c);
    forall d | d in s.entries && d.msg == c.msg ensures d == c {
      assert Linked(s, d);
      SameEntry(s.entries, c, d);
    }
  }

  /** In any store, be the maps inverse or not: removing by an id takes the link of the removed
      entry's message exactly when it leads to that id, and no other link. */
  lemma LinksAfterRemoval(s: Store, id: Id)
    ensures var left := Removed(s, ById(id)).byMsg;
            && (forall m :: m in left ==> m in s.byMsg && left[m] == s.byMsg[m])
            && forall m :: m in s.byMsg && m !in left <==>
                 m in s.byMsg && s.byMsg[m] == id && exists c :: Got(s, ById(id)) == Some(c) && c.msg == m
  {
    hide Popped;
    LookupIs(s.entries, id);
    var got := Got(s, ById(id));
    assert got.Some? ==> got == Some(got.value);
  }

  /** Nothing is found under a message or an id no entry has. */
  lemma NotFound(cfg: Settings, s: Store, now: int, key: Key)
    requires Good(cfg, s, now)
    requires forall c :: c in s.entries ==> key != ById(c.id) && key != ByMessage(c.msg)
    ensures Got(s, key).None? && Removed(s, key) == s
  {
    match key
    case ById(id) => LookupIs(s.entries, id);
    case ByMessage(m) => EntryOf(s, m);
  }

  lemma EntryOf(s: Store, m: MsgKey)
    requires Inverse(s)
    ensures m in s.byMsg ==> exists c :: c in s.entries && c.msg == m
  {
    if m in s.byMsg {
      assert HasEntry(s, m);
    }
  }

  // ------------------------------------------------------------ the store as an object

  class RetryStore {
    const cfg: Settings
    var entries: seq<Context>
    var byMsg: map<MsgKey, Id>

    function View(): Store reads this { Store(entries, byMsg) }

    constructor (cfg: Settings)
      ensures this.cfg == cfg && View() == Store([], map[])
    {
      this.cfg, entries, byMsg := cfg, [], map[];
    }

    method EvictExpired(now: int)
      modifies this
      ensures View() == Evicted(cfg, old(View()), now)
    {
      var expired := Kept(entries, ExpiredAt(cfg, now));
      for i := 0 to |expired|
        invariant View() == DroppedAll(old(View()), expired[..i])
      {
        assert expired[..i + 1][..i] == expired[..i];
        var c := expired[i];
        entries := Popped(entries, c.id);
        if c.msg in byMsg && byMsg[c.msg] == c.id {
          byMsg := byMsg - {c.msg};
        }
      }
      assert expired[..|expired|] == expired;
    }

    /** `id` is the random id, `now` the clock. */
    method PutEntry(msg: MsgKey, payload: int, id: Id, now: int) returns (c: Context)
      modifies this
      ensures c == Context(id, msg, payload, now) && View() == Put(cfg, old(View()), c)
    {
      hide Evicted, Popped, Assigned;
      EvictExpired(now);
      if msg in byMsg {
        var oldId := byMsg[msg];
        byMsg := byMsg - {msg};
        entries := Popped(entries, oldId);
      }
      c := Context(id, msg, payload, now);
      entries := Assigned(entries, c);
      byMsg := byMsg[msg := id];
      ghost var full := View();
      while |entries| > cfg.maxEntries
        invariant Bounded(View(), cfg.maxEntries) == Bounded(full, cfg.maxEntries)
        decreases |entries|
      {
        byMsg := byMsg - {entries[0].msg};
        entries := entries[1..];
      }
    }

    method GetEntry(key: Key, now: int) returns (c: Option<Context>)
      modifies this
      ensures View() == Evicted(cfg, old(View()), now) && c == Got(View(), key)
    {
      EvictExpired(now);
      match key {
        case ById(id) => c := Lookup(entries, id);
        case ByMessage(m) =>
          if m !in byMsg {
            return None;
          }
          c := Lookup(entries, byMsg[m]);
      }
    }

    method Remove(key: Key, now: int) returns (c: Option<Context>)
      modifies this
      ensures var e := Evicted(cfg, old(View()), now); View() == Removed(e, key) && c == Got(e, key)
    {
      hide Evicted;
      EvictExpired(now);
      match key {
        case ByMessage(m) =>
          if m !in byMsg {
            return None;
          }
          var id := byMsg[m];
          byMsg := byMsg - {m};
          c := Lookup(entries, id);
          entries := Popped(entries, id);
        case ById(id) =>
          c := Lookup(entries, id);
          if c.Some? {
            FoundId(entries, id);
            entries := Popped(entries, id);
            if c.value.msg in byMsg && byMsg[c.value.msg] == c.value.id {
              byMsg := byMsg - {c.value.msg};
            }
          }
      }
    }

    method Clear()
      modifies this
      ensures View() == Store([], map[])
    {
      entries, byMsg := [], map[];
    }
  }

  lemma FoundId(entries: seq<Context>, id: Id)
    requires Lookup(entries, id).Some?
    ensures Lookup(entries, id).value.id == id
  {
    LookupIs(entries, id);
  }
}

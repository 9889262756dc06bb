/** Prices and balances (credits/service.py). A credit is a unit of delivered volume. */
module Credits {
  import opened Common

  const BYTES_PER_MB := 1024 * 1024

  /** `math.ceil(a / b)`. */
  function CeilDiv(a: nat, b: nat): nat
    requires b > 0
  {
    (a + b - 1) / b
  }

  lemma CeilDivIs(a: nat, b: nat)
    requires b > 0
    ensures a <= CeilDiv(a, b) * b < a + b
  {
    var q := CeilDiv(a, b);
    assert a + b - 1 == b * q + (a + b - 1) % b;
    assert q * b == b * q;
  }

  function Total(sizes: seq<nat>): nat {
    if sizes == [] then 0 else Total(sizes[..|sizes| - 1]) + sizes[|sizes| - 1]
  }

  lemma {:induction false} TotalConcat(a: seq<nat>, b: seq<nat>)
    ensures Total(a + b) == Total(a) + Total(b)
  {
    if b == [] {
      assert a + b == a;
    } else {
      assert (a + b)[..|a + b| - 1] == a + b[..|b| - 1];
      TotalConcat(a, b[..|b| - 1]);
    }
  }

  function Unit(mbPerCredit: nat): nat { BYTES_PER_MB * mbPerCredit }

  /** `credits_for_sizes`. The unit is positive: the service does not start with another. */
  function Price(sizes: seq<nat>, mbPerCredit: nat): nat
    requires mbPerCredit > 0
  {
    if sizes == [] then 0 else Max(1, CeilDiv(Total(sizes), Unit(mbPerCredit)))
  }

  /** The total is the sum of the sizes. */
  lemma TotalIsTheSum(size: nat, a: seq<nat>, b: seq<nat>)
    ensures Total([]) == 0 && Total([size]) == size && Total(a + b) == Total(a) + Total(b)
  {
    assert [size][..0] == [];
    TotalConcat(a, b);
  }

  /** The price is the smallest positive number of units of `mb_per_credit` times 1048576 bytes
      that holds everything delivered; only nothing is free. */
  lemma PriceCoversTheVolume(sizes: seq<nat>, mbPerCredit: nat)
    requires mbPerCredit > 0
    ensures var p, unit := Price(sizes, mbPerCredit), 1_048_576 * mbPerCredit;
            && Total(sizes) <= p * unit
            && (p > 1 ==> (p - 1) * unit < Total(sizes))
            && (p == 0 <==> sizes == [])
  {
    var unit := Unit(mbPerCredit);
    CeilDivIs(Total(sizes), unit);
    var c: int := CeilDiv(Total(sizes), unit);
    assert (c - 1) * unit == c * unit - unit;
    assert c == 0 ==> c * unit == 0;
  }

  lemma CeilDivMonotone(a: nat, c: nat, b: nat)
    requires b > 0 && a <= c
    ensures CeilDiv(a, b) <= CeilDiv(c, b)
  {
    CeilDivIs(a, b);
    CeilDivIs(c, b);
    Smaller(CeilDiv(a, b), CeilDiv(c, b), b);
  }

  lemma Smaller(x: nat, y: nat, b: nat)
    requires b > 0 && x * b < y * b + b
    ensures x <= y
  {
    assert (y + 1) * b == y * b + b;
    NotLess(x, y + 1, b);
  }

  lemma NotLess(x: nat, z: nat, b: nat)
    ensures x >= z ==> x * b >= z * b
  {
  }

  /** More delivered never costs less. */
  lemma PriceMonotone(a: seq<nat>, b: seq<nat>, mbPerCredit: nat)
    requires mbPerCredit > 0 && Total(a) <= Total(b) && (a != [] ==> b != [])
    ensures Price(a, mbPerCredit) <= Price(b, mbPerCredit)
  {
    CeilDivMonotone(Total(a), Total(b), Unit(mbPerCredit));
  }

  /** The files of a request, each cut into at least one part. */
  ghost predicate Splits(files: seq<nat>, parts: seq<seq<nat>>) {
    |parts| == |files| && forall k :: 0 <= k < |files| ==> parts[k] != [] && Total(parts[k]) == files[k]
  }

  lemma {:induction false} SplitTotals(files: seq<nat>, parts: seq<seq<nat>>)
    requires Splits(files, parts)
    ensures Total(Flatten(parts)) == Total(files)
    ensures Flatten(parts) == [] <==> files == []
  {
    if files != [] {
      var last := |files| - 1;
      assert Splits(files[..last], parts[..last]);
      SplitTotals(files[..last], parts[..last]);
      TotalConcat(Flatten(parts[..last]), parts[last]);
    }
  }

  /** However the files are cut, the request costs the same. */
  lemma SplittingKeepsThePrice(files: seq<nat>, parts: seq<seq<nat>>, mbPerCredit: nat)
    requires Splits(files, parts) && mbPerCredit > 0
    ensures Price(Flatten(parts), mbPerCredit) == Price(files, mbPerCredit)
  {
    SplitTotals(files, parts);
  }

  // ------------------------------------------------------------ balances

  /** A user row; NULL counters count as 0. */
  datatype User = User(free: int, paid: int, bandwidthUsed: int, totalBandwidth: int, blocked: bool)

  function Spendable(u: User): nat { Max(u.free, 0) + Max(u.paid, 0) }

  /** The row after `n` credits were asked for: free ones first, then paid ones. */
  function Deducted(u: User, n: nat): User {
    var fromFree := Min(n, Max(u.free, 0));
    var fromPaid := Min(n - fromFree, Max(u.paid, 0));
    u.(free := u.free - fromFree, paid := u.paid - fromPaid)
  }

  /** Exactly min(balance, n) credits go, no counter falls below zero because of it, and paid
      credits are only touched once no free ones are left. */
  lemma DeductionIsFair(u: User, n: nat)
    ensures var d := Deducted(u, n);
            && Spendable(d) == Spendable(u) - Min(n, Spendable(u))
            && (d.paid != u.paid ==> d.free <= 0)
            && Min(u.free, 0) <= d.free <= u.free && Min(u.paid, 0) <= d.paid <= u.paid
            && d.bandwidthUsed == u.bandwidthUsed && d.totalBandwidth == u.totalBandwidth
  {
  }

  lemma DeductOneMore(u: User, n: nat)
    ensures var d := Deducted(u, n);
            Deducted(u, n + 1) ==
              if d.free > 0 then d.(free := d.free - 1)
              else if d.paid > 0 then d.(paid := d.paid - 1) else d
  {
  }

  lemma NothingLeft(u: User, n: nat, m: nat)
    requires n <= m && Deducted(u, n).free <= 0 && Deducted(u, n).paid <= 0
    ensures Deducted(u, m) == Deducted(u, n)
  {
  }

  function WithBandwidth(u: User, size: int): User {
    if size <= 0 then u else u.(bandwidthUsed := u.bandwidthUsed + size, totalBandwidth := u.totalBandwidth + size)
  }

  datatype QuotaError = UnknownUser | Blocked | CreditsExhausted | BandwidthExhausted | DatabaseError

  /** `CreditsService` over the user table. A transaction that does not commit raises and
      changes nothing. */
  class CreditsService {
    const enableVip: bool
    const owners: set<int>
    const freeBandwidth: int
    const mbPerCredit: nat
    var users: map<int, User>

    /** The constructor raises for a unit that is not positive. */
    constructor (enableVip: bool, owners: set<int>, freeBandwidth: int, mbPerCredit: nat, users: map<int, User>)
      requires mbPerCredit > 0
      ensures this.enableVip == enableVip && this.owners == owners && this.freeBandwidth == freeBandwidth
      ensures this.mbPerCredit == mbPerCredit && this.users == users
    {
      this.enableVip, this.owners, this.freeBandwidth := enableVip, owners, freeBandwidth;
      this.mbPerCredit, this.users := mbPerCredit, users;
    }

    /** None when the user may start a download; otherwise the first reason that applies. */
    method CheckQuota(userId: int) returns (error: Option<QuotaError>)
      ensures !enableVip || userId in owners ==> error.None?
      ensures enableVip && userId !in owners && userId !in users ==> error == Some(UnknownUser)
      ensures enableVip && userId !in owners && userId in users ==>
                var u := users[userId];
                && (error.None? <==> !u.blocked && u.free + u.paid > 0 && (u.paid > 0 || u.bandwidthUsed < freeBandwidth))
                && (error == Some(Blocked) <==> u.blocked)
                && (error == Some(CreditsExhausted) <==> !u.blocked && u.free + u.paid <= 0)
                && (error == Some(BandwidthExhausted)
                    <==> !u.blocked && u.free + u.paid > 0 && u.paid <= 0 && u.bandwidthUsed >= freeBandwidth)
    {
      if !enableVip || userId in owners {
        return None;
      }
      if userId !in users {
        return Some(UnknownUser);
      }
      var user := users[userId];
      if user.blocked {
        return Some(Blocked);
      }
      if user.free + user.paid <= 0 {
        return Some(CreditsExhausted);
      }
      if user.paid <= 0 && user.bandwidthUsed >= freeBandwidth {
        return Some(BandwidthExhausted);
      }
      error := None;
    }

    /** `use_quota_dynamic`: the remaining credits, None for "unlimited". Owners are charged
        like everyone else here; only the check before a download exempts them. */
    method UseQuotaDynamic(userId: int, sizes: seq<nat>, commits: bool) returns (r: Result<Option<int>, QuotaError>)
      requires mbPerCredit > 0
      modifies this`users
      ensures r.Err? || !enableVip ==> users == old(users)
      ensures !enableVip ==> r == Ok(None)
      ensures r.Ok? <==> !enableVip || (userId in old(users) && commits)
      ensures enableVip && r.Ok? ==>
                var after := Deducted(old(users)[userId], Price(sizes, mbPerCredit));
                users == old(users)[userId := after] && r.value == Some(after.free + after.paid)
    {
      if !enableVip {
        return Ok(None);
      }
      var creditsToDeduct := Price(sizes, mbPerCredit);
      if userId !in users {
        return Err(UnknownUser);
      }
      var user := users[userId];
      var asked := 0;
      while asked < creditsToDeduct
        invariant asked <= creditsToDeduct && users == old(users)
        invariant user == Deducted(users[userId], asked)
      {
        DeductOneMore(users[userId], asked);
        if user.free > 0 {
          user := user.(free := user.free - 1);
        } else if user.paid > 0 {
          user := user.(paid := user.paid - 1);
        } else {
          NothingLeft(users[userId], asked, creditsToDeduct);
          break;
        }
        asked := asked + 1;
      }
      if !commits {
        return Err(DatabaseError);
      }
      users := users[userId := user];
      r := Ok(Some(user.free + user.paid));
    }

    method AddBandwidthUsed(userId: int, size: int, commits: bool) returns (error: Option<QuotaError>)
      modifies this`users
      ensures error.Some? || !enableVip || size <= 0 ==> users == old(users)
      ensures error.None? <==> !enableVip || size <= 0 || (userId in old(users) && commits)
      ensures enableVip && size > 0 && error.None? ==>
                userId in old(users) &&
                var u := old(users)[userId];
                users == old(users)[userId := u.(bandwidthUsed := u.bandwidthUsed + size, totalBandwidth := u.totalBandwidth + size)]
    {
      if !enableVip || size <= 0 {
        return None;
      }
      if userId !in users {
        return Some(UnknownUser);
      }
      if !commits {
        return Some(DatabaseError);
      }
      users := users[userId := WithBandwidth(users[userId], size)];
      error := None;
    }
  }
}

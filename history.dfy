/**
 * app/api/user/history/route.js: first fail this user's Pending donations
 * created more than 15 minutes before `now` (one `updateMany`), then return
 * this user's donations newest first. `Date.now()` is the parameter `now`, in
 * milliseconds.
 */
module History {
  import opened DonationSchema
  import opened Http
  import opened Store
  import opened Ordering
  import opened AdminStats

  /** 15 minutes, in milliseconds. */
  const StaleWindowMs := 15 * 60 * 1000

  /** The `updateMany` filter: this user, still Pending, created strictly before `now - 15 min`. */
  predicate Stale(d: Donation, userId: string, now: int)
  {
    d.userId == userId && d.status == Pending && d.createdAt < now - StaleWindowMs
  }

  /** The table after `updateMany(filter, { $set: { status: "Failed" } })`. */
  function Sweep(s: seq<Donation>, userId: string, now: int): (r: seq<Donation>)
    ensures |r| == |s|
    ensures forall k :: 0 <= k < |s| ==> (r[k] != s[k] <==> Stale(s[k], userId, now))
    ensures forall k :: 0 <= k < |s| && r[k] != s[k] ==> r[k] == s[k].(status := Failed, updatedAt := now)
  {
    seq(|s|, k requires 0 <= k < |s| => if Stale(s[k], userId, now) then MarkFailed(s[k], now) else s[k])
  }

  /**
   * What the sweep leaves alone: Success and Failed records, other users'
   * records, and Pending records exactly 15 minutes old or younger.
   */
  lemma SweepSpares(s: seq<Donation>, userId: string, now: int, k: nat)
    requires k < |s|
    requires s[k].status != Pending || s[k].userId != userId || s[k].createdAt >= now - StaleWindowMs
    ensures Sweep(s, userId, now)[k] == s[k]
  {
  }

  /** Sweeping twice at the same time is sweeping once. */
  lemma SweepIdempotent(s: seq<Donation>, userId: string, now: int)
    ensures Sweep(Sweep(s, userId, now), userId, now) == Sweep(s, userId, now)
  {
    var once := Sweep(s, userId, now);
    var twice := Sweep(once, userId, now);
    forall k | 0 <= k < |s|
      ensures twice[k] == once[k]
    {
      if once[k] != s[k] {
        assert once[k].status == Failed;
      }
    }
  }

  /** Failing abandoned Pending records does not change the admin total. */
  lemma SweepKeepsTotal(s: seq<Donation>, userId: string, now: int)
    ensures TotalSuccess(Sweep(s, userId, now)) == TotalSuccess(s)
  {
    var r := Sweep(s, userId, now);
    forall k | 0 <= k < |s|
      ensures Credit(s[k]) == Credit(r[k])
    {
    }
    TotalPointwise(s, r);
  }

  /** `Donation.find({ userId })`, order kept. */
  function OwnedBy(s: seq<Donation>, userId: string): (r: seq<Donation>)
    ensures forall x :: x in r <==> x in s && x.userId == userId
    ensures forall x :: multiset(r)[x] == if x.userId == userId then multiset(s)[x] else 0
  {
    if s == [] then []
    else
      assert s == [s[0]] + s[1..];
      (if s[0].userId == userId then [s[0]] else []) + OwnedBy(s[1..], userId)
  }

  /** The list the route returns: all and only this user's records, newest first. */
  function Listing(s: seq<Donation>, userId: string): (r: seq<Donation>)
    ensures NewestFirstOrdered(r)
    ensures forall x :: x in r <==> x in s && x.userId == userId
    ensures multiset(r) == multiset(OwnedBy(s, userId))
  {
    var mine := NewestFirst(OwnedBy(s, userId));
    assert forall x :: x in mine <==> x in multiset(mine);
    mine
  }

  /** The POST handler: the sweep loop, then the listing of the swept table. */
  method Post(db: Database, userId: string, now: int) returns (resp: Response)
    requires db.Valid()
    modifies db
    ensures db.Valid()
    ensures db.donations == Sweep(old(db.donations), userId, now)
    ensures resp == Response(200, History(Listing(db.donations, userId)))
    ensures db.users == old(db.users) && db.nextId == old(db.nextId)
  {
    var cutoff := now - StaleWindowMs;
    var i := 0;
    while i < |db.donations|
      invariant 0 <= i <= |db.donations| == |old(db.donations)|
      invariant db.Valid()
      invariant forall k :: 0 <= k < i ==> db.donations[k] == Sweep(old(db.donations), userId, now)[k]
      invariant forall k :: i <= k < |db.donations| ==> db.donations[k] == old(db.donations)[k]
      invariant db.users == old(db.users) && db.nextId == old(db.nextId)
    {
      var d := db.donations[i];
      if d.userId == userId && d.status == Pending && d.createdAt < cutoff {
        db.Replace(i, MarkFailed(d, now));
      }
      i := i + 1;
    }
    resp := Response(200, History(Listing(db.donations, userId)));
  }
}

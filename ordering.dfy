/**
 * The `.sort({ createdAt: -1 })` applied by the history and admin-stats
 * queries: newest first. The store's order among records created in the same
 * millisecond is unspecified; this model places the earlier-listed record first.
 */
module Ordering {
  import opened DonationSchema

  /** Newest first: createdAt never increases along the list. */
  ghost predicate NewestFirstOrdered(s: seq<Donation>)
  {
    forall i, j :: 0 <= i < j < |s| ==> s[i].createdAt >= s[j].createdAt
  }

  /** Puts `d` into a newest-first list at its place. */
  function Insert(d: Donation, s: seq<Donation>): (r: seq<Donation>)
    requires NewestFirstOrdered(s)
    ensures NewestFirstOrdered(r)
    ensures multiset(r) == multiset(s) + multiset{d}
    ensures |r| == |s| + 1
    ensures r[0] == d || (s != [] && r[0] == s[0])
  {
    if s == [] || d.createdAt >= s[0].createdAt then [d] + s
    else
      var rest := Insert(d, s[1..]);
      assert s == [s[0]] + s[1..];
      assert rest[0].createdAt <= s[0].createdAt;
      [s[0]] + rest
  }

  /** The same records, newest first. */
  function NewestFirst(s: seq<Donation>): (r: seq<Donation>)
    ensures NewestFirstOrdered(r)
    ensures multiset(r) == multiset(s)
    ensures |r| == |s|
  {
    if s == [] then []
    else
      assert s == [s[0]] + s[1..];
      Insert(s[0], NewestFirst(s[1..]))
  }
}

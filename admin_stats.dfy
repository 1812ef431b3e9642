/**
 * app/api/admin/stats/route.js: a read-only projection over both tables.
 * It counts the users whose role is "user", sums the amounts of the
 * donations whose status is "Success", and lists the role-"user" users and
 * every donation, newest first. Unlike the history route it sweeps nothing.
 */
module AdminStats {
  import opened DonationSchema
  import opened Users
  import opened Ordering
  import opened Http

  /** What one donation adds to the total: its amount when Success, nothing otherwise. */
  function Credit(d: Donation): int
  {
    if d.status == Success then d.amount else 0
  }

  /** `donations.filter(d => d.status === "Success")`, order kept. */
  function SuccessOnly(s: seq<Donation>): (r: seq<Donation>)
    ensures forall x :: x in r <==> x in s && x.status == Success
    ensures forall x :: multiset(r)[x] == if x.status == Success then multiset(s)[x] else 0
    ensures |r| <= |s|
  {
    if s == [] then []
    else
      var last := s[|s| - 1];
      assert s == s[..|s| - 1] + [last];
      SuccessOnly(s[..|s| - 1]) + (if last.status == Success then [last] else [])
  }

  /** `.reduce((acc, curr) => acc + curr.amount, 0)`: a left fold from the first record. */
  function SumAmounts(s: seq<Donation>): int
  {
    if s == [] then 0 else SumAmounts(s[..|s| - 1]) + s[|s| - 1].amount
  }

  /** The `totalDonations` figure: the sum of the Success amounts. */
  function TotalSuccess(s: seq<Donation>): int
  {
    SumAmounts(SuccessOnly(s))
  }

  /** Appending one record adds exactly its credit to the total. */
  lemma TotalSnoc(s: seq<Donation>, d: Donation)
    ensures TotalSuccess(s + [d]) == TotalSuccess(s) + Credit(d)
  {
    var t := s + [d];
    assert t[..|t| - 1] == s;
    var f := SuccessOnly(s);
    if d.status == Success {
      assert SuccessOnly(t) == f + [d];
      assert (f + [d])[..|f|] == f;
    } else {
      assert SuccessOnly(t) == f;
    }
  }

  /** The total of two tables side by side is the sum of their totals. */
  lemma {:induction false} TotalConcat(s: seq<Donation>, t: seq<Donation>)
    ensures TotalSuccess(s + t) == TotalSuccess(s) + TotalSuccess(t)
    decreases |t|
  {
    if t == [] {
      assert s + t == s;
    } else {
      var init, last := t[..|t| - 1], t[|t| - 1];
      assert t == init + [last];
      assert s + t == (s + init) + [last];
      TotalConcat(s, init);
      TotalSnoc(s + init, last);
      TotalSnoc(init, last);
    }
  }

  /** Prepending one record adds exactly its credit to the total. */
  lemma TotalCons(d: Donation, s: seq<Donation>)
    ensures TotalSuccess([d] + s) == Credit(d) + TotalSuccess(s)
  {
    TotalConcat([d], s);
    TotalSnoc([], d);
    assert [] + [d] == [d];
  }

  /** Two tables whose records credit the same amounts, position by position, have the same total. */
  lemma {:induction false} TotalPointwise(s: seq<Donation>, t: seq<Donation>)
    requires |s| == |t|
    requires forall k :: 0 <= k < |s| ==> Credit(s[k]) == Credit(t[k])
    ensures TotalSuccess(s) == TotalSuccess(t)
    decreases |s|
  {
    if s != [] {
      var n := |s| - 1;
      assert s == s[..n] + [s[n]];
      assert t == t[..n] + [t[n]];
      TotalPointwise(s[..n], t[..n]);
      TotalSnoc(s[..n], s[n]);
      TotalSnoc(t[..n], t[n]);
    }
  }

  /** Replacing one record moves the total by the difference of the two credits. */
  lemma TotalReplace(s: seq<Donation>, i: nat, d: Donation)
    requires i < |s|
    ensures TotalSuccess(s[i := d]) == TotalSuccess(s) - Credit(s[i]) + Credit(d)
  {
    var pre, post := s[..i], s[i + 1..];
    assert s == (pre + [s[i]]) + post;
    assert s[i := d] == (pre + [d]) + post;
    TotalConcat(pre + [s[i]], post);
    TotalConcat(pre + [d], post);
    TotalSnoc(pre, s[i]);
    TotalSnoc(pre, d);
  }

  /** Inserting a record into a newest-first list adds exactly its credit. */
  lemma {:induction false} TotalInsert(d: Donation, s: seq<Donation>)
    requires NewestFirstOrdered(s)
    ensures TotalSuccess(Insert(d, s)) == Credit(d) + TotalSuccess(s)
    decreases |s|
  {
    if s == [] || d.createdAt >= s[0].createdAt {
      TotalCons(d, s);
    } else {
      assert s == [s[0]] + s[1..];
      TotalInsert(d, s[1..]);
      TotalCons(s[0], Insert(d, s[1..]));
      TotalCons(s[0], s[1..]);
    }
  }

  /** Sorting newest first does not change the total. */
  lemma {:induction false} TotalNewestFirst(s: seq<Donation>)
    ensures TotalSuccess(NewestFirst(s)) == TotalSuccess(s)
    decreases |s|
  {
    if s != [] {
      assert s == [s[0]] + s[1..];
      TotalNewestFirst(s[1..]);
      TotalInsert(s[0], NewestFirst(s[1..]));
      TotalCons(s[0], s[1..]);
    }
  }

  /** `User.countDocuments({ role })`. */
  function CountRole(users: seq<User>, role: string): (r: nat)
    ensures r <= |users|
  {
    if users == [] then 0
    else (if users[0].role == role then 1 else 0) + CountRole(users[1..], role)
  }

  /** `User.find({ role: "user" })`, order kept. */
  function Customers(users: seq<User>): (r: seq<User>)
    ensures forall u :: u in r <==> u in users && u.role == "user"
    ensures forall u :: multiset(r)[u] == if u.role == "user" then multiset(users)[u] else 0
  {
    if users == [] then []
    else
      assert users == [users[0]] + users[1..];
      (if users[0].role == "user" then [users[0]] else []) + Customers(users[1..])
  }

  /** The count and the list select the same users. */
  lemma {:induction false} CountIsCustomers(users: seq<User>)
    ensures CountRole(users, "user") == |Customers(users)|
  {
    if users != [] {
      CountIsCustomers(users[1..]);
    }
  }

  /** `.select("name email createdAt")`, which keeps the _id as well. */
  function Summary(u: User): UserSummary
  {
    UserSummary(u.id, u.name, u.email, u.createdAt)
  }

  function Summaries(us: seq<User>): (r: seq<UserSummary>)
    ensures |r| == |us|
    ensures forall k :: 0 <= k < |us| ==> r[k] == Summary(us[k])
  {
    if us == [] then [] else [Summary(us[0])] + Summaries(us[1..])
  }

  /** The GET handler: stats, the role-"user" users, and every donation newest first. */
  function Get(users: seq<User>, donations: seq<Donation>): (r: Response)
    ensures r.status == 200 && r.body.Stats?
    ensures r.body.users == |r.body.userList| == CountRole(users, "user")
    ensures r.body.totalDonations == TotalSuccess(donations)
    ensures NewestFirstOrdered(r.body.donations)
    ensures multiset(r.body.donations) == multiset(donations)
    ensures forall v :: v in r.body.userList <==> exists u :: u in users && u.role == "user" && v == Summary(u)
  {
    var sorted := NewestFirst(donations);
    var customers := Customers(users);
    TotalNewestFirst(donations);
    CountIsCustomers(users);
    var list := Summaries(customers);
    assert forall v :: v in list ==> exists u :: u in customers && v == Summary(u);
    assert forall u :: u in customers ==> Summary(u) in list;
    Response(200, Stats(CountRole(users, "user"), TotalSuccess(sorted), list, sorted))
  }
}

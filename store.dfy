/**
 * The two mongoose collections the routes share, as one object whose fields
 * the routes update in place: the Donation table, the User table, and the
 * counter the store draws fresh _id values from.
 */
module Store {
  import opened Common
  import opened DonationSchema
  import opened Users

  /** `findOne({ orderId })`: the index of the first record carrying that orderId, if any. */
  function FirstOrder(s: seq<Donation>, orderId: string): (r: Option<nat>)
    ensures r.Some? ==> r.value < |s| && s[r.value].orderId == Some(orderId)
    ensures r.Some? ==> forall j :: 0 <= j < r.value ==> s[j].orderId != Some(orderId)
    ensures r.None? <==> forall j :: 0 <= j < |s| ==> s[j].orderId != Some(orderId)
  {
    if s == [] then None
    else if s[0].orderId == Some(orderId) then Some(0)
    else match FirstOrder(s[1..], orderId)
      case None => None
      case Some(i) => Some(i + 1)
  }

  /** Changing records without changing any orderId leaves the first match where it was. */
  lemma FirstOrderStable(s: seq<Donation>, t: seq<Donation>, orderId: string)
    requires |s| == |t|
    requires forall k :: 0 <= k < |s| ==> s[k].orderId == t[k].orderId
    ensures FirstOrder(s, orderId) == FirstOrder(t, orderId)
  {
  }

  /** Appending a record with an orderId no earlier record has makes it the one found by that orderId. */
  lemma FirstOrderAppend(s: seq<Donation>, d: Donation, orderId: string)
    requires d.orderId == Some(orderId)
    requires FirstOrder(s, orderId).None?
    ensures FirstOrder(s + [d], orderId) == Some(|s|)
  {
    var t := s + [d];
    forall j | 0 <= j < |s|
      ensures t[j].orderId != Some(orderId)
    {
      assert t[j] == s[j];
    }
    assert t[|s|] == d;
    var r := FirstOrder(t, orderId);
    assert r.Some?;
  }

  class Database {
    var donations: seq<Donation>
    var users: seq<User>
    var nextId: nat

    /** Every _id was drawn from the counter, so ids lie below it and no two records share one. */
    ghost predicate Valid()
      reads this
    {
      (forall i :: 0 <= i < |donations| ==> donations[i].id < nextId)
      && (forall i, j :: 0 <= i < j < |donations| ==> donations[i].id != donations[j].id)
      && (forall i :: 0 <= i < |users| ==> users[i].id < nextId)
      && (forall i, j :: 0 <= i < j < |users| ==> users[i].id != users[j].id)
    }

    constructor ()
      ensures Valid()
      ensures donations == [] && users == [] && nextId == 0
    {
      donations, users, nextId := [], [], 0;
    }

    /** The lookup half of `findOneAndUpdate({ orderId })`: scans the table in order. */
    method FindOrder(orderId: string) returns (r: Option<nat>)
      ensures r == FirstOrder(donations, orderId)
    {
      var i := 0;
      while i < |donations|
        invariant 0 <= i <= |donations|
        invariant forall j :: 0 <= j < i ==> donations[j].orderId != Some(orderId)
      {
        if donations[i].orderId == Some(orderId) {
          return Some(i);
        }
        i := i + 1;
      }
      r := None;
    }

    /** `User.findOne({ email })`: scans the user table in order. */
    method FindUserByEmail(email: string) returns (r: Option<nat>)
      ensures r == FirstByEmail(users, email)
    {
      var i := 0;
      while i < |users|
        invariant 0 <= i <= |users|
        invariant forall j :: 0 <= j < i ==> users[j].email != email
      {
        if users[i].email == email {
          return Some(i);
        }
        i := i + 1;
      }
      r := None;
    }

    /** `Donation.create(draft)`: validates the draft against the schema and, if it passes, appends it under a fresh _id. */
    method CreateDonation(draft: Draft, now: int) returns (r: Result<Donation, SchemaError>)
      requires Valid()
      modifies this
      ensures Valid()
      ensures r == Create(draft, old(nextId), now)
      ensures r.Ok? ==> donations == old(donations) + [r.value] && nextId == old(nextId) + 1
      ensures r.Err? ==> donations == old(donations) && nextId == old(nextId)
      ensures users == old(users)
    {
      r := Create(draft, nextId, now);
      if r.Ok? {
        donations := donations + [r.value];
        nextId := nextId + 1;
      }
    }

    /** `User.create(...)`: appends a user under a fresh _id. */
    method CreateUser(name: string, email: string, password: string, role: string, now: int) returns (u: User)
      requires Valid()
      modifies this
      ensures Valid()
      ensures u == User(old(nextId), name, email, password, role, now)
      ensures users == old(users) + [u] && nextId == old(nextId) + 1
      ensures donations == old(donations)
    {
      u := User(nextId, name, email, password, role, now);
      users := users + [u];
      nextId := nextId + 1;
    }

    /** The write half of an update: record `i` is replaced by a new version of itself (same _id). */
    method Replace(i: nat, d: Donation)
      requires Valid()
      requires i < |donations| && d.id == donations[i].id
      modifies this
      ensures Valid()
      ensures donations == old(donations)[i := d]
      ensures users == old(users) && nextId == old(nextId)
    {
      donations := donations[i := d];
    }
  }
}

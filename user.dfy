/**
 * The User record the auth routes read and write. Its mongoose schema
 * (models/User.js) is not part of this model; the fields are those the
 * register, login and admin-stats routes use.
 */
module Users {
  import opened Common

  datatype User = User(
    id: nat,            // the store-assigned _id
    name: string,
    email: string,
    password: string,   // the stored bcrypt hash
    role: string,       // whatever the client sent: "admin" or "user" from the login page
    createdAt: int)

  /** `User.findOne({ email })`: the index of the first user with that email, if any. */
  function FirstByEmail(users: seq<User>, email: string): (r: Option<nat>)
    ensures r.Some? ==> r.value < |users| && users[r.value].email == email
    ensures r.Some? ==> forall j :: 0 <= j < r.value ==> users[j].email != email
    ensures r.None? <==> forall j :: 0 <= j < |users| ==> users[j].email != email
  {
    if users == [] then None
    else if users[0].email == email then Some(0)
    else match FirstByEmail(users[1..], email)
      case None => None
      case Some(i) => Some(i + 1)
  }

  /** No two users share an email. */
  ghost predicate EmailsUnique(users: seq<User>)
  {
    forall i, j :: 0 <= i < j < |users| ==> users[i].email != users[j].email
  }

  /** Appending a user whose email is unused keeps emails unique, and makes that user the one found by email. */
  lemma AppendUnusedEmail(users: seq<User>, u: User)
    requires FirstByEmail(users, u.email).None?
    ensures EmailsUnique(users) ==> EmailsUnique(users + [u])
    ensures FirstByEmail(users + [u], u.email) == Some(|users|)
  {
    var s := users + [u];
    forall j | 0 <= j < |users|
      ensures s[j].email != u.email
    {
      assert s[j] == users[j];
    }
    var r := FirstByEmail(s, u.email);
    assert s[|users|].email == u.email;
    assert r.Some?;
    assert r.value == |users|;
  }
}

/**
 * app/api/auth/register/route.js: insert a user only when the email is
 * unused, storing the bcrypt hash of the password. bcrypt is the
 * function-typed parameter `hash`.
 */
module Register {
  import opened Users
  import opened Http
  import opened Store

  const UserExists := "User already exists"
  const RegisteredOk := "User registered successfully"

  /** The route's response and the User table afterwards. */
  datatype Registration = Registration(resp: Response, users: seq<User>)

  /** The route's effect, as a function of the table before and the next fresh _id. */
  function Register(users: seq<User>, nextId: nat, name: string, email: string, password: string,
                    role: string, hash: string -> string, now: int): (out: Registration)
    ensures FirstByEmail(users, email).Some? ==>
              out == Registration(Response(400, Message(UserExists)), users)
    ensures FirstByEmail(users, email).None? ==>
              out.resp == Response(201, Message(RegisteredOk))
              && out.users == users + [User(nextId, name, email, hash(password), role, now)]
    ensures EmailsUnique(users) ==> EmailsUnique(out.users)
    ensures FirstByEmail(out.users, email).Some?
  {
    if FirstByEmail(users, email).Some? then Registration(Response(400, Message(UserExists)), users)
    else
      var u := User(nextId, name, email, hash(password), role, now);
      AppendUnusedEmail(users, u);
      Registration(Response(201, Message(RegisteredOk)), users + [u])
  }

  /** The POST handler. */
  method Post(db: Database, name: string, email: string, password: string, role: string,
              hash: string -> string, now: int) returns (resp: Response)
    requires db.Valid()
    modifies db
    ensures db.Valid()
    ensures Registration(resp, db.users) == Register(old(db.users), old(db.nextId), name, email, password, role, hash, now)
    ensures db.donations == old(db.donations)
    ensures db.nextId == old(db.nextId) + (if resp.status == 201 then 1 else 0)
  {
    var existing := db.FindUserByEmail(email);
    if existing.Some? {
      return Response(400, Message(UserExists));
    }
    var hashed := hash(password);
    var _ := db.CreateUser(name, email, hashed, role, now);
    resp := Response(201, Message(RegisteredOk));
  }
}

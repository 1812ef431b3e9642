/**
 * app/api/auth/login/route.js: look the user up by email and compare the
 * password with the stored hash (`bcrypt.compare`, the parameter `matches`).
 * Nothing is written.
 */
module Login {
  import opened Common
  import opened Users
  import opened Http
  import Register

  const InvalidCredentials := "Invalid email or password"
  const LoginOk := "Login successful"

  /** `bcrypt.compare(plain, hash)`. */
  type PasswordCheck = (string, string) -> bool

  /** The user object sent back: id, name, email and role. */
  function View(u: User): UserView
  {
    UserView(u.id, u.name, u.email, u.role)
  }

  /** The POST handler. An unknown email and a wrong password get the very same answer. */
  function Login(users: seq<User>, email: string, password: string, matches: PasswordCheck): (r: Response)
    ensures r.status == 200 || r == Response(400, Message(InvalidCredentials))
    ensures r.status == 200 <==>
              FirstByEmail(users, email).Some? && matches(password, users[FirstByEmail(users, email).value].password)
    ensures r.status == 200 ==>
              var u := users[FirstByEmail(users, email).value];
              r.body == LoggedIn(LoginOk, UserView(u.id, u.name, u.email, u.role))
  {
    match FirstByEmail(users, email)
    case None => Response(400, Message(InvalidCredentials))
    case Some(i) =>
      if !matches(password, users[i].password) then Response(400, Message(InvalidCredentials))
      else Response(200, LoggedIn(LoginOk, View(users[i])))
  }

  /**
   * A user registered through the register route can log in with the same
   * password, provided the password check accepts a password against its own
   * hash, and gets back the stored id, name, email and role.
   */
  lemma RegisterThenLogin(users: seq<User>, nextId: nat, name: string, email: string, password: string,
                          role: string, hash: string -> string, matches: PasswordCheck, now: int)
    requires FirstByEmail(users, email).None?
    requires matches(password, hash(password))
    ensures Login(Register.Register(users, nextId, name, email, password, role, hash, now).users, email, password, matches)
            == Response(200, LoggedIn(LoginOk, UserView(nextId, name, email, role)))
  {
    AppendUnusedEmail(users, User(nextId, name, email, hash(password), role, now));
  }
}

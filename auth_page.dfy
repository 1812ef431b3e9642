/**
 * The decisions of app/page.js: the role guessed from the email, the endpoint
 * the form posts to, and what happens with the answer. The React state
 * (`setFormData`, `setLoading`) and the network call are not modelled.
 */
module AuthPage {
  import opened Common

  const AdminSuffix := "iitr.ac.in"
  const LoginEndpoint := "/api/auth/login"
  const RegisterEndpoint := "/api/auth/register"
  const AdminDashboard := "/admin/dashboard"
  const UserDashboard := "/user/dashboard"
  const AuthFailed := "Authentication failed!"

  /** `String.prototype.endsWith`, comparing from the last character backwards. */
  function EndsWith(s: string, suffix: string): (r: bool)
    ensures r <==> |suffix| <= |s| && s[|s| - |suffix|..] == suffix
  {
    if suffix == [] then true
    else if s == [] then false
    else
      var ok := s[|s| - 1] == suffix[|suffix| - 1] && EndsWith(s[..|s| - 1], suffix[..|suffix| - 1]);
      assert |suffix| <= |s| ==> s[|s| - |suffix|..] == s[..|s| - 1][|s| - |suffix|..] + [s[|s| - 1]];
      assert suffix == suffix[..|suffix| - 1] + [suffix[|suffix| - 1]];
      ok
  }

  /** `getRole`: "admin" exactly for an email whose last ten characters are "iitr.ac.in". */
  function GetRole(email: string): (r: string)
    ensures r == "admin" || r == "user"
    ensures r == "admin" <==> |email| >= 10 && email[|email| - 10..] == AdminSuffix
  {
    if email == "" then "user"
    else if EndsWith(email, AdminSuffix) then "admin"
    else "user"
  }

  /** Every address at iitr.ac.in is detected as admin. */
  lemma IitrAddressIsAdmin(local: string)
    ensures GetRole(local + "@iitr.ac.in") == "admin"
  {
    var e := local + "@iitr.ac.in";
    assert e[|e| - 10..] == AdminSuffix;
  }

  /** The test is a plain suffix test: an address at another domain that merely ends the same way is admin too. */
  lemma LookalikeDomainIsAdmin()
    ensures GetRole("a@notiitr.ac.in") == "admin"
  {
    var e := "a@notiitr.ac.in";
    assert e[|e| - 10..] == AdminSuffix;
  }

  /** The request `handleSubmit` sends: the form fields plus the detected role. */
  datatype Request = Request(endpoint: string, name: string, email: string, password: string, role: string)

  function Submit(isLogin: bool, name: string, email: string, password: string): (r: Request)
    ensures r.endpoint == (if isLogin then LoginEndpoint else RegisterEndpoint)
    ensures r.role == GetRole(email)
    ensures r.name == name && r.email == email && r.password == password
  {
    Request(if isLogin then LoginEndpoint else RegisterEndpoint, name, email, password, GetRole(email))
  }

  /** What the page does with the answer. */
  datatype Next = Redirect(path: string) | Alert(message: string)

  /**
   * On an ok answer, redirect by the role detected from the email (not by any
   * role the server holds); otherwise alert `data.message || "Authentication failed!"`,
   * where an empty message also falls back.
   */
  function AfterResponse(role: string, ok: bool, message: Option<string>): (r: Next)
    ensures ok ==> r.Redirect?
    ensures ok ==> (r.path == AdminDashboard <==> role == "admin")
    ensures ok ==> (r.path == UserDashboard <==> role != "admin")
    ensures !ok ==> r.Alert? && r.message != ""
    ensures !ok && message.Some? && message.value != "" ==> r == Alert(message.value)
    ensures !ok && (message.None? || message.value == "") ==> r == Alert(AuthFailed)
  {
    if ok then Redirect(if role == "admin" then AdminDashboard else UserDashboard)
    else if message.Some? && message.value != "" then Alert(message.value)
    else Alert(AuthFailed)
  }
}

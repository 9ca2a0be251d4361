/** The login check: the one fixed credential pair, compared exactly. */
module Auth {

  import opened Wrappers

  const DEFAULT_USERNAME: string := "linsija"
  const DEFAULT_PASSWORD: string := "linsi123"

  /** The login endpoint's body: `{"success": true}` or
      `{"success": false, "message": ...}`. */
  datatype LoginResponse = LoginResponse(success: bool, message: Option<string>)

  /** Success exactly for the fixed pair; any other pair fails with the one
      fixed message, and a success carries no message. */
  function Login(username: string, password: string): (r: LoginResponse)
    ensures r.success <==> username == "linsija" && password == "linsi123"
    ensures r.success ==> r.message == None
    ensures !r.success ==> r.message == Some("Incorrect username or password")
  {
    if username == DEFAULT_USERNAME && password == DEFAULT_PASSWORD then
      LoginResponse(true, None)
    else
      LoginResponse(false, Some("Incorrect username or password"))
  }
}

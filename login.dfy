/**
 * The login page. Its only logic is a presence check: no credential is
 * compared with anything.
 */
module Login {
  import opened JsString

  datatype LoginResult = MissingFields | LoggedIn

  /**
   * `handleSubmit`: fails when the e-mail is blank after `trim()` or the
   * password is empty. A password of spaces is accepted, since only its
   * emptiness is tested.
   */
  function Submit(email: string, password: string): (r: LoginResult)
    ensures r == LoggedIn <==> (exists k | 0 <= k < |email| :: !IsJsWhitespace(email[k])) && password != ""
  {
    if Trim(email) == "" || password == "" then MissingFields else LoggedIn
  }

  /** A whitespace-only password passes as long as the e-mail is not blank. */
  lemma BlankPasswordAccepted(email: string, password: string)
    requires exists k | 0 <= k < |email| :: !IsJsWhitespace(email[k])
    requires password != [] && forall k | 0 <= k < |password| :: IsJsWhitespace(password[k])
    ensures Submit(email, password) == LoggedIn
  {
  }

  class LoginPage {
    var email: string
    var password: string

    constructor()
      ensures email == "" && password == ""
    {
      email := "";
      password := "";
    }

    method SetEmail(value: string)
      modifies this
      ensures email == value && password == old(password)
    {
      email := value;
    }

    method SetPassword(value: string)
      modifies this
      ensures password == value && email == old(email)
    {
      password := value;
    }
  }
}

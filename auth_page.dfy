/**
 * The sign-in / sign-up page: a form whose submit runs a chain of checks
 * and, when they all pass, calls `login` or `signup` of the session
 * context, then goes to `/` unless that call threw.
 */
module AuthPage {
  import opened Wrappers
  import opened Text
  import AuthRoutes

  datatype Mode = SignIn | SignUp

  /** The context call a submit makes, if any. */
  datatype Call = NoCall | Login(email: string, password: string) | Signup(email: string, password: string, name: string)

  const FillAllFields := "Please fill in all fields"
  const PasswordsDiffer := "Passwords do not match"
  const PasswordTooShort := "Password must be at least 6 characters"

  /**
   * The checks of `handleSubmit`, first failure first: both fields
   * present, then (signing up only) the confirmation, then at least six
   * UTF-16 code units of password.
   */
  function Validate(mode: Mode, email: string, password: string, confirm: string): (r: Option<string>)
    ensures email == "" || password == "" ==> r == Some(FillAllFields)
    ensures email != "" && password != "" && mode == SignUp && password != confirm ==> r == Some(PasswordsDiffer)
    ensures (email != "" && password != "" && (mode == SignUp ==> password == confirm)
             && Utf16Length(password) < 6) ==> r == Some(PasswordTooShort)
    ensures r.None? <==> email != "" && password != "" && (mode == SignUp ==> password == confirm)
                         && Utf16Length(password) >= 6
  {
    if email == "" || password == "" then Some(FillAllFields)
    else if mode == SignUp && password != confirm then Some(PasswordsDiffer)
    else if Utf16Length(password) < 6 then Some(PasswordTooShort)
    else None
  }

  /** Signing in, the confirmation field plays no part. */
  lemma SignInIgnoresConfirmation(email: string, password: string, c1: string, c2: string)
    ensures Validate(SignIn, email, password, c1) == Validate(SignIn, email, password, c2)
  {
  }

  /**
   * A sign-up form that passes the page's checks also passes the server's
   * own: it is not refused for a missing field or a short password.
   */
  lemma PageChecksCoverServerChecks(email: string, password: string, confirm: string)
    requires Validate(SignUp, email, password, confirm).None?
    ensures email != "" && password != ""
    ensures Utf16Length(password) >= AuthRoutes.MinPasswordLength
  {
  }

  class AuthPage {
    var mode: Mode
    var email: string
    var password: string
    var name: string
    var confirmPassword: string
    var error: string

    constructor ()
      ensures mode == SignIn && email == "" && password == "" && name == ""
      ensures confirmPassword == "" && error == ""
    {
      mode := SignIn;
      email := "";
      password := "";
      name := "";
      confirmPassword := "";
      error := "";
    }

    /**
     * `handleSubmit`. The page's error is cleared, then set to the first
     * failed check, in which case no call is made. Otherwise the call for
     * the mode is made (its failure is reported by the context), and the
     * page goes to `/` only when the call did not throw.
     */
    method HandleSubmit(callSucceeds: bool) returns (call: Call, navigateTo: Option<string>)
      modifies this
      ensures error == Validate(mode, email, password, confirmPassword).GetOr("")
      ensures Validate(mode, email, password, confirmPassword).Some? ==> call == NoCall && navigateTo == None
      ensures Validate(mode, email, password, confirmPassword).None? ==>
                && call == (if mode == SignIn then Login(email, password) else Signup(email, password, name))
                && (navigateTo == Some("/") <==> callSucceeds)
      ensures !callSucceeds ==> navigateTo == None
      ensures mode == old(mode) && email == old(email) && password == old(password)
      ensures name == old(name) && confirmPassword == old(confirmPassword)
    {
      error := "";
      var problem := Validate(mode, email, password, confirmPassword);
      if problem.Some? {
        error := problem.value;
        return NoCall, None;
      }
      call := if mode == SignIn then Login(email, password) else Signup(email, password, name);
      navigateTo := if callSucceeds then Some("/") else None;
    }

    /** `toggleMode`: the other mode, with error, confirmation and name cleared. */
    method ToggleMode()
      modifies this
      ensures mode == (if old(mode) == SignIn then SignUp else SignIn)
      ensures error == "" && confirmPassword == "" && name == ""
      ensures email == old(email) && password == old(password)
    {
      mode := if mode == SignIn then SignUp else SignIn;
      error := "";
      confirmPassword := "";
      name := "";
    }

    /** Toggling twice brings the mode back and keeps the credentials. */
    method ToggleTwice()
      modifies this
      ensures mode == old(mode) && email == old(email) && password == old(password)
      ensures error == "" && confirmPassword == "" && name == ""
    {
      ToggleMode();
      ToggleMode();
    }
  }
}

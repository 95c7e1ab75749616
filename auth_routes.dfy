/**
 * `POST /auth/signup` and `POST /auth/signin`: the authenticator over the
 * profile table. Request fields are strings, with an absent field read as
 * the empty string (both are falsy to the guards). `storeFails` says that
 * the first call into the database or the hasher throws, which the
 * handlers turn into a 500. `now` is the clock reading, in seconds, at
 * which the token is signed.
 */
module AuthRoutes {
  import opened Wrappers
  import opened Text
  import opened Schema
  import opened Store

  const MinPasswordLength: nat := 6

  const MissingFields := Response(400, Message("Email and password are required"))
  const PasswordTooShort := Response(400, Message("Password must be at least 6 characters"))
  const EmailTaken := Response(409, Message("User with this email already exists"))
  const BadCredentials := Response(401, Message("Invalid email or password"))
  const InternalError := Response(500, Message("Internal server error"))

  /** The success body: a token for the profile, issued now for seven days, and its public fields. */
  function SessionBody(message: string, p: Profile, secret: string, now: int): (b: Body)
    ensures b.Session? && b.message == message
    ensures b.token.claims == Claims(p.id, p.email) && b.token.secret == secret
    ensures b.token.issuedAt == now && b.token.expiresAt == now + TokenLifetime
    ensures b.user == PublicUser(p.id, p.email, p.name)
  {
    Session(message, Sign(Claims(p.id, p.email), secret, now), PublicView(p))
  }

  /** The profile a successful signup stores. */
  function NewAccount(id: string, email: string, password: string, name: string): (p: Profile)
    ensures p.email == email && p.id == id
    ensures p.name == NameOrLocalPart(name, email)
    ensures p.password == Some(Hash(password, SaltRounds))
  {
    Profile(id, email, NameOrLocalPart(name, email), Some(Hash(password, SaltRounds)))
  }

  /**
   * `POST /auth/signup`. The guards run in order: both fields present, then
   * the length, then the e-mail must be free; only then is a profile
   * created, with the password hashed at cost 10.
   */
  method Signup(db: ProfileTable, secret: string, email: string, password: string, name: string,
                newId: string, now: int, storeFails: bool) returns (res: Response)
    requires db.Valid()
    modifies db
    ensures db.Valid()
    ensures email == "" || password == "" ==> res == MissingFields && unchanged(db)
    ensures email != "" && password != "" && Utf16Length(password) < MinPasswordLength ==>
              res == PasswordTooShort && unchanged(db)
    ensures email != "" && password != "" && Utf16Length(password) >= MinPasswordLength ==>
              if storeFails then res == InternalError && unchanged(db)
              else if email in old(db.rows) then res == EmailTaken && unchanged(db)
              else
                var p := NewAccount(newId, email, password, name);
                && db.rows == old(db.rows)[email := p]
                && db.order == old(db.order) + [email]
                && res == Response(201, SessionBody("User created successfully", p, secret, now))
  {
    if email == "" || password == "" {
      return MissingFields;
    }
    if Utf16Length(password) < MinPasswordLength {
      return PasswordTooShort;
    }
    if storeFails {
      return InternalError;
    }
    if email in db.rows {
      return EmailTaken;
    }
    var profile := NewAccount(newId, email, password, name);
    db.Create(profile);
    res := Response(201, SessionBody("User created successfully", profile, secret, now));
  }

  /**
   * `POST /auth/signin`. Only presence is checked, not the length. An
   * unknown e-mail, a profile without a password and a wrong password all
   * get the same 401.
   */
  method Signin(db: ProfileTable, secret: string, email: string, password: string, now: int,
                storeFails: bool) returns (res: Response)
    requires db.Valid()
    ensures email == "" || password == "" ==> res == MissingFields
    ensures email != "" && password != "" && storeFails ==> res == InternalError
    ensures email != "" && password != "" && !storeFails ==>
              if email in db.rows && db.rows[email].password.Some?
                 && Matches(password, db.rows[email].password.value)
              then res == Response(200, SessionBody("Signed in successfully", db.rows[email], secret, now))
              else res == BadCredentials
  {
    if email == "" || password == "" {
      return MissingFields;
    }
    if storeFails {
      return InternalError;
    }
    if email !in db.rows {
      return BadCredentials;
    }
    var profile := db.rows[email];
    if profile.password.None? {
      return BadCredentials;
    }
    if !Matches(password, profile.password.value) {
      return BadCredentials;
    }
    res := Response(200, SessionBody("Signed in successfully", profile, secret, now));
  }

  /**
   * A signup that succeeds is followed by a signin with the same
   * credentials that succeeds too, for the same user and with the same
   * claims. The two tokens differ only in their issue and expiry times,
   * so they are equal only when both are signed in the same second.
   */
  method SignupThenSignin(db: ProfileTable, secret: string, email: string, password: string,
                          name: string, newId: string, signupAt: int, signinAt: int)
    returns (signedUp: Response, signedIn: Response)
    requires db.Valid()
    modifies db
    ensures signedUp.status == 201 ==> signedIn.status == 200
    ensures signedUp.status == 201 ==> signedIn.body.Session? && signedUp.body.Session?
    ensures signedUp.status == 201 ==>
              && signedIn.body.user == signedUp.body.user
              && signedIn.body.token.claims == signedUp.body.token.claims
              && signedUp.body.token.claims.email == email
    ensures signedUp.status == 201 ==>
              signedIn.body.token
                == signedUp.body.token.(issuedAt := signinAt, expiresAt := signinAt + TokenLifetime)
    ensures signedUp.status == 201 ==>
              (signedIn.body.token == signedUp.body.token <==> signinAt == signupAt)
  {
    signedUp := Signup(db, secret, email, password, name, newId, signupAt, false);
    signedIn := Signin(db, secret, email, password, signinAt, false);
  }
}

/**
 * The session context of the client: the signed-in user and token, kept
 * both in component state and under two browser storage keys,
 * `auth_token` and `auth_user`. The storage is modelled as two fields of
 * the context. A stored user is either the serialization of a user
 * (which reads back as that user) or text that does not parse.
 */
module AuthContext {
  import opened Wrappers
  import opened Text
  import opened Schema
  import opened Client

  /** What `auth_user` holds. */
  datatype StoredUser = Serialized(user: PublicUser) | Garbled(text: string)

  /** `!!storedUser`: a serialized user is never the empty string. */
  predicate Present(s: Option<StoredUser>)
  {
    s.Some? && (s.value.Serialized? || s.value.text != "")
  }

  /** How a call to `/auth/signin` or `/auth/signup` ended. */
  datatype AuthReply =
    | Accepted(token: string, user: PublicUser)
    | Refused(message: string)
    | Unreachable(thrown: Option<string>)

  /** The error text for a failed call: the server's `message`, or the thrown error's, or the fallback. */
  function FailureText(reply: AuthReply, fallback: string): (r: string)
    requires !reply.Accepted?
    ensures reply.Refused? && reply.message != "" ==> r == reply.message
    ensures reply.Refused? && reply.message == "" ==> r == fallback
    ensures reply.Unreachable? ==> r == ErrorText(reply.thrown, fallback)
  {
    if reply.Refused? then Or(reply.message, fallback) else ErrorText(reply.thrown, fallback)
  }

  /** The name `signup` sends is the one the server would have chosen itself. */
  lemma SentNameIsKept(name: string, email: string)
    ensures NameOrLocalPart(NameOrLocalPart(name, email), email) == NameOrLocalPart(name, email)
  {
  }

  class AuthContext {
    var user: Option<PublicUser>
    var token: Option<string>
    var loading: bool
    var error: Option<string>
    var storedToken: Option<string>
    var storedUser: Option<StoredUser>

    /**
     * Mounting, with what storage held. The session is restored only when
     * both keys hold something. The token is taken before the user is
     * parsed, so a stored user that does not parse leaves the token in
     * state while both keys are removed.
     */
    constructor (savedToken: Option<string>, savedUser: Option<StoredUser>)
      ensures !loading && error == None
      ensures !(savedToken.Some? && savedToken.value != "" && Present(savedUser)) ==>
                user == None && token == None && storedToken == savedToken && storedUser == savedUser
      ensures savedToken.Some? && savedToken.value != "" && Present(savedUser) && savedUser.value.Serialized? ==>
                user == Some(savedUser.value.user) && token == savedToken
                && storedToken == savedToken && storedUser == savedUser
      ensures savedToken.Some? && savedToken.value != "" && Present(savedUser) && savedUser.value.Garbled? ==>
                user == None && token == savedToken && storedToken == None && storedUser == None
    {
      loading := false;
      error := None;
      storedToken := savedToken;
      storedUser := savedUser;
      user := None;
      token := None;
      if savedToken.Some? && savedToken.value != "" && Present(savedUser) {
        token := savedToken;
        match savedUser.value {
          case Serialized(u) =>
            user := Some(u);
          case Garbled(_) =>
            storedToken := None;
            storedUser := None;
        }
      }
    }

    /** `isAuthenticated` and `requireAuth()`: a user and a non-empty token. */
    function IsAuthenticated(): (r: bool)
      reads this
      ensures r <==> user.Some? && token.Some? && token.value != ""
    {
      user.Some? && token.Some? && token.value != ""
    }

    /**
     * `login` and `signup` after the request: an accepted call stores the
     * token and user in storage and in state; a failed one sets the error,
     * leaves the session as it was and throws (`threw`).
     */
    method Complete(reply: AuthReply, fallback: string) returns (threw: bool)
      modifies this
      ensures !loading
      ensures threw <==> !reply.Accepted?
      ensures reply.Accepted? ==>
                && token == Some(reply.token) && user == Some(reply.user)
                && storedToken == Some(reply.token) && storedUser == Some(Serialized(reply.user))
                && error == None
      ensures !reply.Accepted? ==>
                && token == old(token) && user == old(user)
                && storedToken == old(storedToken) && storedUser == old(storedUser)
                && error == Some(FailureText(reply, fallback))
    {
      loading := true;
      error := None;
      if reply.Accepted? {
        storedToken := Some(reply.token);
        storedUser := Some(Serialized(reply.user));
        token := Some(reply.token);
        user := Some(reply.user);
        threw := false;
      } else {
        error := Some(FailureText(reply, fallback));
        threw := true;
      }
      loading := false;
    }

    /** `login(email, password)`: posts the credentials to `/auth/signin`. */
    method Login(reply: AuthReply) returns (threw: bool)
      modifies this
      ensures !loading
      ensures threw <==> !reply.Accepted?
      ensures reply.Accepted? ==>
                && token == Some(reply.token) && user == Some(reply.user)
                && storedToken == Some(reply.token) && storedUser == Some(Serialized(reply.user))
                && error == None
      ensures reply.Accepted? && reply.token != "" ==> IsAuthenticated()
      ensures !reply.Accepted? ==>
                && token == old(token) && user == old(user)
                && storedToken == old(storedToken) && storedUser == old(storedUser)
                && error == Some(FailureText(reply, "Login failed"))
    {
      threw := Complete(reply, "Login failed");
    }

    /**
     * `signup(email, password, name)`: posts the credentials to
     * `/auth/signup` with `name`, or the part of the e-mail before the
     * first `@` when the name is empty (returned as `sentName`).
     */
    method Signup(email: string, name: string, reply: AuthReply) returns (sentName: string, threw: bool)
      modifies this
      ensures sentName == NameOrLocalPart(name, email)
      ensures name == "" ==> sentName <= email && '@' !in sentName
      ensures !loading
      ensures threw <==> !reply.Accepted?
      ensures reply.Accepted? ==>
                && token == Some(reply.token) && user == Some(reply.user)
                && storedToken == Some(reply.token) && storedUser == Some(Serialized(reply.user))
                && error == None
      ensures !reply.Accepted? ==>
                && token == old(token) && user == old(user)
                && storedToken == old(storedToken) && storedUser == old(storedUser)
                && error == Some(FailureText(reply, "Signup failed"))
    {
      sentName := NameOrLocalPart(name, email);
      threw := Complete(reply, "Signup failed");
    }

    /** `logout`: both keys removed, user, token and error cleared; a second logout changes nothing. */
    method Logout()
      modifies this
      ensures user == None && token == None && error == None
      ensures storedToken == None && storedUser == None
      ensures loading == old(loading)
      ensures !IsAuthenticated()
    {
      storedToken := None;
      storedUser := None;
      token := None;
      user := None;
      error := None;
    }

    /** After an accepted login, mounting again from storage restores the same session. */
    method LoginThenReload(reply: AuthReply) returns (reloaded: AuthContext)
      requires reply.Accepted? && reply.token != ""
      modifies this
      ensures fresh(reloaded)
      ensures reloaded.user == user && reloaded.token == token
      ensures reloaded.IsAuthenticated()
    {
      var _ := Login(reply);
      reloaded := new AuthContext(storedToken, storedUser);
    }
  }
}

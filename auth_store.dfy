/** The client-side session store: the current user, a loading flag and an
    error message. Each action brackets its service call with the loading
    flag and overwrites fields of the store. The backend's answers arrive as
    parameters and go through the service functions; `threw` stands for a
    failure of the network or the client library, which no service function
    sees. */
module UseAuthStore {
  import opened JsBuiltins
  import opened Types
  import AuthService

  const InvalidCredentials := "Invalid credentials or pending approval"
  const LoginFailed := "Login failed"
  const RegistrationFailed := "Registration failed"

  /** The user after a successful password change for `id`: the first-login
      flag is cleared only when `id` is the current user's. */
  function AfterPasswordChange(user: Option<User>, id: Id): (r: Option<User>)
    ensures r.Some? <==> user.Some?
    ensures user.Some? && user.value.id == id ==> r == Some(user.value.(isFirstLogin := false))
    ensures user.None? || user.value.id != id ==> r == user
  {
    if user.Some? && user.value.id == id then Some(user.value.(isFirstLogin := false)) else user
  }

  /** Clearing the flag for the current user is idempotent, and afterwards
      the user no longer needs a password change. */
  lemma PasswordChangeSettles(user: User, id: Id)
    requires user.id == id
    ensures var once := AfterPasswordChange(Some(user), id);
            && once.Some? && !once.value.isFirstLogin
            && once.value == user.(isFirstLogin := false)
            && AfterPasswordChange(once, id) == once
  {
  }

  class AuthStore {
    var user: Option<User>
    var isLoading: bool
    var error: Option<string>

    /** The initial state: no user, loading, no error. */
    constructor ()
      ensures user.None? && isLoading && error.None?
    {
      user := None;
      isLoading := true;
      error := None;
    }

    /** `checkSession`: the user becomes what `getCurrentUser` makes of the
        session and the profile row; a throw is swallowed and leaves the
        user alone. Loading is off at the end. */
    method CheckSession(threw: bool, session: Option<AuthService.AuthUser>,
                        profile: Option<AuthService.Profile>)
      modifies this
      ensures user == (if threw then old(user) else AuthService.GetCurrentUser(session, profile))
      ensures !threw ==> (user.Some? <==> session.Some?)
      ensures error == old(error) && !isLoading
    {
      isLoading := true;
      if !threw {
        user := AuthService.GetCurrentUser(session, profile);
      }
      isLoading := false;
    }

    /** `login`: the error is cleared first. A user returned by the service
        `login` is stored and the result is true; a null answer or a throw
        set their messages, leave the user alone and give false. The
        service's own refusal of an unapproved account is a throw, so it
        ends with "Login failed", not with the message that mentions
        approval. Loading is off at the end. */
    method Login(threw: bool, signIn: Option<AuthService.AuthUser>, profile: Option<AuthService.Profile>)
      returns (ok: bool)
      modifies this
      ensures var reply := AuthService.Login(signIn, profile).result;
              && (ok <==> !threw && reply.Fulfilled? && reply.value.Some?)
              && user == (if ok then reply.value else old(user))
              && error == (if ok then None
                           else if !threw && reply.Fulfilled? then Some(InvalidCredentials)
                           else Some(LoginFailed))
      ensures signIn.Some? && profile.Some? && !AuthService.PassesGate(profile.value) ==>
                !ok && error == Some(LoginFailed) && user == old(user)
      ensures ok ==> user.Some? && user.value.id == signIn.value.id && !user.value.isFirstLogin
      ensures !isLoading
    {
      isLoading, error := true, None;
      var reply := if threw then Rejected(LoginFailed) else AuthService.Login(signIn, profile).result;
      match reply {
        case Fulfilled(Some(u)) =>
          user := Some(u);
          ok := true;
        case Fulfilled(None) =>
          error := Some(InvalidCredentials);
          ok := false;
        case Rejected(_) =>
          error := Some(LoginFailed);
          ok := false;
      }
      isLoading := false;
    }

    /** `logout`: once `signOut` returns the user becomes null; a throw
        propagates before the user is touched. Nothing else changes. */
    method Logout(threw: bool) returns (ok: bool)
      modifies this
      ensures ok <==> !threw
      ensures user == (if threw then old(user) else None)
      ensures isLoading == old(isLoading) && error == old(error)
    {
      if threw {
        return false;
      }
      user := None;
      ok := true;
    }

    /** `register`: the error is cleared first; a failure of the service
        `register` sets "Registration failed" and propagates its reason. The
        registered user is not stored. Loading is off at the end. */
    method Register(name: string, email: string, signUp: Settled<Option<Id>>, now: string)
      returns (outcome: Settled<()>)
      modifies this
      ensures var reply := AuthService.Register(name, email, signUp, now);
              && (outcome.Fulfilled? <==> reply.Fulfilled?)
              && (reply.Rejected? ==> outcome.reason == reply.reason)
              && error == (if reply.Fulfilled? then None else Some(RegistrationFailed))
      ensures outcome.Fulfilled? <==> signUp.Fulfilled? && signUp.value.Some?
      ensures user == old(user) && !isLoading
    {
      isLoading, error := true, None;
      var reply := AuthService.Register(name, email, signUp, now);
      if reply.Rejected? {
        error := Some(RegistrationFailed);
        outcome := Rejected(reply.reason);
      } else {
        outcome := Fulfilled(());
      }
      isLoading := false;
    }

    /** `changePassword`: after a successful change the first-login flag of
        the current user is cleared when the id is theirs; a throw propagates
        and changes nothing. Loading is off at the end either way. */
    method ChangePassword(id: Id, reply: Settled<()>) returns (outcome: Settled<()>)
      modifies this
      ensures outcome == reply
      ensures user == (if reply.Fulfilled? then AfterPasswordChange(old(user), id) else old(user))
      ensures error == old(error) && !isLoading
    {
      isLoading := true;
      if reply.Fulfilled? {
        user := AfterPasswordChange(user, id);
      }
      outcome := reply;
      isLoading := false;
    }
  }
}

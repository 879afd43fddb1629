/** The authentication slice: the signed-in user, whether the session is
    authenticated, and the last error. */
module AuthStore {
  import opened Wrappers

  /** The client-side user record; only its identity matters here. */
  datatype ClientUser = ClientUser(id: string, username: string, role: string)

  /** `Partial<AuthState>`: a field left out of the payload is `None`. */
  datatype AuthPatch = AuthPatch(user: Option<ClientUser>, isAuthenticated: Option<bool>,
                                 error: Option<string>)

  /** `error || null`: the empty string is falsy and becomes null. */
  function ErrorOrNull(e: Option<string>): (r: Option<string>)
    ensures r.Some? ==> r == e && r.value != ""
    ensures e.Some? && e.value != "" ==> r == e
  {
    if e.Some? && e.value != "" then e else None
  }

  /** `isAuthenticated || false`. */
  function FlagOrFalse(b: Option<bool>): (r: bool)
    ensures r <==> b == Some(true)
  {
    b.Some? && b.value
  }

  class AuthState {
    var user: Option<ClientUser>
    var isAuthenticated: bool
    var error: Option<string>

    /** The initial state: nobody signed in, no error. */
    constructor ()
      ensures user == None && !isAuthenticated && error == None
    {
      user := None;
      isAuthenticated := false;
      error := None;
    }

    /** `setAuthState`: all three fields are replaced from the payload; an
        omitted or falsy field resets, nothing is merged with the old state. */
    method SetAuthState(payload: AuthPatch)
      modifies this
      ensures error == ErrorOrNull(payload.error)
      ensures isAuthenticated == FlagOrFalse(payload.isAuthenticated)
      ensures user == payload.user
    {
      error := ErrorOrNull(payload.error);
      isAuthenticated := FlagOrFalse(payload.isAuthenticated);
      user := payload.user;
    }

    /** `clearError`: only the error is reset. */
    method ClearError()
      modifies this
      ensures error == None
      ensures user == old(user) && isAuthenticated == old(isAuthenticated)
    {
      error := None;
    }
  }

  /** A sign-in payload that names no error leaves no error behind,
      whatever error was recorded before. */
  method SignInClearsError(s: AuthState, u: ClientUser)
    modifies s
    ensures s.user == Some(u) && s.isAuthenticated && s.error == None
  {
    s.SetAuthState(AuthPatch(Some(u), Some(true), None));
  }
}

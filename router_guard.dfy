/** The navigation guard of the client router (diploMatch/src/router/index.ts): public pages
    pass, a protected page needs a token, and a token without a loaded user is first
    restored through the auth store. */
module RouterGuard {
  import opened Common
  import opened Browser
  import opened AuthStore

  datatype Decision = Allow | Redirect(to: string)

  const LoginPage := "/login"
  const PublicPages: seq<string> := ["/login", "/register", "/forgot-password"]

  /** The decision once the store has been restored: a protected page needs the store to
      hold a token. */
  function AfterRestore(requiresAuth: bool, token: Option<string>): (d: Decision)
    ensures d == Redirect(LoginPage) <==> requiresAuth && !Truthy(token)
    ensures d == Allow <==> !requiresAuth || Truthy(token)
  {
    if requiresAuth && !Truthy(token) then Redirect(LoginPage) else Allow
  }

  /** `beforeEach` as written, with `restoreUser` leaving its logout unawaited. */
  method GuardAsWritten(auth: Auth, storage: LocalStorage, path: string, requiresAuth: bool,
                        me: Reply<UserData>, profile: Reply<ProfileData>) returns (d: Decision)
    modifies auth`user, auth`token, auth`fullProfile, auth`logoutPending
    ensures path in PublicPages ==> d == Allow && auth.token == old(auth.token) && auth.user == old(auth.user)
    ensures path !in PublicPages && requiresAuth && !Truthy(storage.token) ==> d == Redirect(LoginPage)
    ensures path !in PublicPages && !requiresAuth ==> d == Allow
    ensures path !in PublicPages && Truthy(storage.token) && old(auth.user).Some? ==> d == AfterRestore(requiresAuth, old(auth.token))
    ensures path !in PublicPages && requiresAuth && Truthy(storage.token) && old(auth.user).None? ==>
              d == Allow && auth.token == storage.token && (me.Failed? ==> auth.user.None? && auth.logoutPending)
  {
    if path in PublicPages {
      return Allow;
    }
    var token := storage.token;
    if requiresAuth && !Truthy(token) {
      return Redirect(LoginPage);
    }
    if Truthy(token) && auth.user.None? {
      auth.RestoreUserAsWritten(storage, me, profile);
    }
    d := AfterRestore(requiresAuth, auth.token);
  }

  /** A session whose token the server no longer accepts: the guard as written lets the
      navigation to a protected page through, with the rejected token still in the store. */
  method ExpiredSessionAdmittedAsWritten() returns (d: Decision, token: Option<string>)
    ensures d == Allow && token == Some("expired")
  {
    var storage := new LocalStorage(Some("expired"), None);
    var auth := new Auth(storage);
    d := GuardAsWritten(auth, storage, "/dashboard", true, Failed(NoReply), Failed(NoReply));
    token := auth.token;
  }

  /** `beforeEach` with `restoreUser` awaiting its logout: an expired session is sent to
      the login page. */
  method Guard(auth: Auth, storage: LocalStorage, path: string, requiresAuth: bool,
               me: Reply<UserData>, profile: Reply<ProfileData>) returns (d: Decision)
    modifies auth`user, auth`token, auth`fullProfile, storage`token
    ensures path in PublicPages ==> d == Allow && auth.token == old(auth.token) && auth.user == old(auth.user)
    ensures path !in PublicPages && requiresAuth && !Truthy(old(storage.token)) ==> d == Redirect(LoginPage)
    ensures path !in PublicPages && !requiresAuth ==> d == Allow
    ensures path !in PublicPages && Truthy(old(storage.token)) && old(auth.user).Some? ==>
              d == AfterRestore(requiresAuth, old(auth.token))
    ensures path !in PublicPages && requiresAuth && Truthy(old(storage.token)) && old(auth.user).None? ==>
              && (me.Answer? ==> d == Allow && auth.user == Some(me.data))
              && (me.Failed? ==> d == Redirect(LoginPage) && auth.token.None? && storage.token.None?)
  {
    if path in PublicPages {
      return Allow;
    }
    var token := storage.token;
    if requiresAuth && !Truthy(token) {
      return Redirect(LoginPage);
    }
    if Truthy(token) && auth.user.None? {
      auth.RestoreUser(storage, me, profile);
    }
    d := AfterRestore(requiresAuth, auth.token);
  }

  /** With the logout awaited, the same expired session is redirected and signed out. */
  method ExpiredSessionRedirected() returns (d: Decision, token: Option<string>)
    ensures d == Redirect(LoginPage) && token.None?
  {
    var storage := new LocalStorage(Some("expired"), None);
    var auth := new Auth(storage);
    d := Guard(auth, storage, "/dashboard", true, Failed(NoReply), Failed(NoReply));
    token := auth.token;
  }
}

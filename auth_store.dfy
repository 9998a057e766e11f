/** The client's auth store (src/store/auth.ts): the signed-in user, the access token kept in
    state and in localStorage, the team and join-request flags, and the login, restore and
    logout actions. API calls are parameters: each action receives the replies it awaits. */
module AuthStore {
  import opened Common
  import opened Browser

  /** The body of GET users/me/ that the store keeps. */
  datatype UserData = UserData(id: nat, email: string, isProfileCompleted: bool)

  /** The body of GET profiles/complete-profile/, kept as received. */
  type ProfileData = string

  /** The body of GET teams/my/: an object (with or without an `id` key), an array, or
      anything else (null, a string, a number). */
  datatype TeamBody = Object(hasId: bool) | Array(length: nat) | Scalar

  /** What `login` returns, or the object it throws. */
  datatype LoginResult = Success | Failure(message: string, blocked: bool, blockedUntil: Option<string>)

  const LoginFailed := "Login failed"

  /** The thrown object: each field falls back to its default when the reply lacks it or
      holds a falsy value. */
  function FailureOf(e: ErrorData): (r: LoginResult)
    ensures r.Failure?
    ensures r.message == LoginFailed <==> !Truthy(e.detail) || e.detail.value == LoginFailed
    ensures r.blocked <==> e.blocked == Some(true)
    ensures r.blockedUntil.Some? <==> Truthy(e.blockedUntil)
    ensures r.blockedUntil.Some? ==> r.blockedUntil == e.blockedUntil
  {
    Failure(if Truthy(e.detail) then e.detail.value else LoginFailed,
            e.blocked == Some(true),
            if Truthy(e.blockedUntil) then e.blockedUntil else None)
  }

  /** A login with no reply at all, or with a reply lacking `access`, reports the defaults:
      not blocked, no end time. */
  lemma NoReplyGivesDefaults()
    ensures FailureOf(NoReply) == Failure(LoginFailed, false, None)
  {
  }

  /** The error a failed login reports: the login call's, none when `access` was missing,
      or that of the users/me/ call. */
  function LoginError(login: Reply<Option<string>>, me: Reply<UserData>): ErrorData {
    if login.Failed? then login.error
    else if !Truthy(login.data) then NoReply
    else if me.Failed? then me.error
    else NoReply
  }

  class Auth {
    var user: Option<UserData>
    var token: Option<string>
    var userHasTeam: bool
    var userHasPendingRequest: bool
    var fullProfile: Option<ProfileData>
    var isLoggingIn: bool
    /** A `logout()` that was called without `await`: its server call is in flight and its
        local clean-up has not run yet. */
    var logoutPending: bool

    /** The initial state: the token is read from localStorage, an empty one counting as none. */
    constructor (storage: LocalStorage)
      ensures token == (if Truthy(storage.token) then storage.token else None)
      ensures user.None? && fullProfile.None? && !userHasTeam && !userHasPendingRequest
      ensures !isLoggingIn && !logoutPending
    {
      token := if Truthy(storage.token) then storage.token else None;
      user, fullProfile := None, None;
      userHasTeam, userHasPendingRequest, isLoggingIn, logoutPending := false, false, false, false;
    }

    /** The local part of `logout`, which runs whether or not the server call succeeded. */
    method Logout(storage: LocalStorage)
      modifies this`user, this`token, storage`token
      ensures user.None? && token.None? && storage.token.None?
    {
      user := None;
      token := None;
      storage.RemoveToken();
    }

    /** `fetchFullProfile`: a failure is logged and leaves the profile as it was. */
    method FetchFullProfile(profile: Reply<ProfileData>)
      modifies this`fullProfile
      ensures fullProfile == (if profile.Answer? then Some(profile.data) else old(fullProfile))
    {
      if profile.Answer? {
        fullProfile := Some(profile.data);
      }
    }

    /** `login`: a reply without a truthy `access` is a failure; any failure clears the token
        in state and in storage and throws the failure object; `isLoggingIn` is reset on
        both paths. */
    method Login(storage: LocalStorage, login: Reply<Option<string>>, me: Reply<UserData>, profile: Reply<ProfileData>)
      returns (r: LoginResult)
      modifies this`user, this`token, this`fullProfile, this`isLoggingIn, storage`token
      ensures !isLoggingIn
      ensures r.Success? <==> login.Answer? && Truthy(login.data) && me.Answer?
      ensures r.Success? ==> && token == login.data && storage.token == login.data && user == Some(me.data)
                             && fullProfile == (if profile.Answer? then Some(profile.data) else old(fullProfile))
      ensures r.Failure? ==> && token.None? && storage.token.None? && user == old(user)
                             && fullProfile == old(fullProfile) && r == FailureOf(LoginError(login, me))
    {
      isLoggingIn := true;
      if login.Failed? || !Truthy(login.data) || me.Failed? {
        token := None;
        storage.RemoveToken();
        r := FailureOf(LoginError(login, me));
      } else {
        token := login.data;
        storage.SetToken(login.data.value);
        user := Some(me.data);
        FetchFullProfile(profile);
        r := Success;
      }
      isLoggingIn := false;
    }

    /** `fetchTeamStatus`: an object with an `id` or a non-empty array means a team; anything
        else, or an error, means none. */
    method FetchTeamStatus(reply: Reply<TeamBody>)
      modifies this`userHasTeam
      ensures userHasTeam <==> reply.Answer? && (reply.data == Object(true) || (reply.data.Array? && reply.data.length > 0))
    {
      match reply {
        case Failed(_) => userHasTeam := false;
        case Answer(Object(hasId)) => userHasTeam := hasId;
        case Answer(Array(n)) => userHasTeam := n > 0;
        case Answer(Scalar) => userHasTeam := false;
      }
    }

    /** `fetchPendingRequest`: the reply's `status`, None when the body has none. */
    method FetchPendingRequest(reply: Reply<Option<string>>)
      modifies this`userHasPendingRequest
      ensures userHasPendingRequest <==> reply == Answer(Some("pending"))
    {
      userHasPendingRequest := reply.Answer? && reply.data == Some("pending");
    }

    /** `restoreUser` as written: when users/me/ fails it calls `logout()` without awaiting it,
        so it returns with the stored token still in place and the clean-up still pending. */
    method RestoreUserAsWritten(storage: LocalStorage, me: Reply<UserData>, profile: Reply<ProfileData>)
      modifies this`user, this`token, this`fullProfile, this`logoutPending
      ensures !Truthy(storage.token) || old(user).Some? ==>
                user == old(user) && token == old(token) && logoutPending == old(logoutPending)
      ensures Truthy(storage.token) && old(user).None? ==>
                && token == storage.token
                && (me.Answer? ==> user == Some(me.data) && logoutPending == old(logoutPending))
                && (me.Failed? ==> user.None? && logoutPending)
    {
      if !Truthy(storage.token) || user.Some? {
        return;
      }
      token := storage.token;
      if me.Answer? {
        user := Some(me.data);
        FetchFullProfile(profile);
      } else {
        logoutPending := true;
      }
    }

    /** The server call of a pending logout settles: its local clean-up runs. */
    method FinishLogout(storage: LocalStorage)
      modifies this`user, this`token, this`logoutPending, storage`token
      ensures old(logoutPending) ==> user.None? && token.None? && storage.token.None?
      ensures !old(logoutPending) ==> user == old(user) && token == old(token) && storage.token == old(storage.token)
      ensures !logoutPending
    {
      if logoutPending {
        Logout(storage);
        logoutPending := false;
      }
    }

    /** `restoreUser` with the logout awaited: an expired session leaves no token behind. */
    method RestoreUser(storage: LocalStorage, me: Reply<UserData>, profile: Reply<ProfileData>)
      modifies this`user, this`token, this`fullProfile, storage`token
      ensures !Truthy(old(storage.token)) || old(user).Some? ==>
                user == old(user) && token == old(token) && storage.token == old(storage.token)
      ensures Truthy(old(storage.token)) && old(user).None? ==>
                && (me.Answer? ==> user == Some(me.data) && token == old(storage.token) && storage.token == old(storage.token))
                && (me.Failed? ==> user.None? && token.None? && storage.token.None?)
    {
      if !Truthy(storage.token) || user.Some? {
        return;
      }
      token := storage.token;
      if me.Answer? {
        user := Some(me.data);
        FetchFullProfile(profile);
      } else {
        Logout(storage);
      }
    }
  }
}

/** The login lockout guard of users/serializers.py
    (CustomTokenObtainPairSerializer.validate): an IP-level limiter kept in the
    cache and an account-level escalating block kept on the user record. */
module LoginGuard {
  import opened Common
  import opened KeyValueCache
  import opened Schema

  const IdleResetSeconds := 600
  const IpCounterTimeout := 600
  const IpBlockTimeout := 900
  const IpCap := 5
  const FailuresBeforeBlock := 3
  const MaxBlockMinutes := 30

  /** Each rejection the guard raises, and the successful hand-over to token issuing. */
  datatype LoginResult =
    | Granted                         // super().validate issues the token pair
    | IpBlocked                       // "Too many login attempts from this IP. Try again later."
    | InvalidCredentials              // unknown email
    | AccountBlocked(minutes: int)    // "Account is temporarily blocked. Try again in {m} minute(s)."
    | TooFast                         // "Too many login attempts. Please wait a moment."
    | IpLimitReached                  // "Too many login attempts from your IP. Try again in 15 minutes."
    | Locked(blockedUntil: Time)      // {"detail": ..., "blocked": True, "blocked_until": ...}
    | IncorrectPassword(attemptsLeft: int)
    | NoActiveAccount                 // super().validate refuses an inactive account

  /** What one call leaves behind: the looked-up account (absent stays absent), the cache, the answer. */
  datatype Outcome = Outcome(account: Option<User>, entries: map<string, Entry>, result: LoginResult)

  /** `request.META.get("REMOTE_ADDR", "unknown")` */
  function ClientAddress(remoteAddr: Option<string>): string {
    if remoteAddr.Some? then remoteAddr.value else "unknown"
  }

  function AttemptsKey(ip: string): string { "login_attempts:" + ip }
  function BlockKey(ip: string): string { "login_blocked:" + ip }

  /** The two cache keys never collide, whatever the addresses. */
  lemma KeysDistinct(a: string, b: string)
    ensures AttemptsKey(a) != BlockKey(b)
  {
    assert AttemptsKey(a)[6] == 'a' && BlockKey(b)[6] == 'b';
  }

  /** `(blocked_until - now).seconds // 60`: timedelta.seconds drops whole days. */
  function RemainingMinutes(diff: int): (m: int)
    requires diff > 0
    ensures 0 <= m < 1440
    ensures diff < 86400 ==> m * 60 <= diff < (m + 1) * 60
  {
    (diff % 86400) / 60
  }

  function Min(a: int, b: int): int { if a <= b then a else b }

  /** The per-account invariant the guard keeps: stored failures 0..2, block duration 5..30 minutes. */
  predicate LockoutBounds(l: Lockout) {
    0 <= l.failedLoginAttempts < FailuresBeforeBlock && 5 <= l.blockDuration <= MaxBlockMinutes
  }

  predicate IpFlagged(entries: map<string, Entry>, ip: string, now: Time) {
    IsSet(Lookup(entries, BlockKey(ip), now))
  }

  /** Count one failed attempt from `ip` and renew the counter's ten-minute timeout. */
  function BumpIp(entries: map<string, Entry>, ip: string, now: Time): map<string, Entry> {
    entries[AttemptsKey(ip) := Entry(Count(CountOrZero(Lookup(entries, AttemptsKey(ip), now)) + 1), now + IpCounterTimeout)]
  }

  /** Step 4: the idle reset after more than ten minutes since the last failure. */
  function IdleReset(l: Lockout, now: Time): Lockout {
    if l.lastFailedLogin.Some? && now - l.lastFailedLogin.value > IdleResetSeconds
    then l.(failedLoginAttempts := 0, blockDuration := 5)
    else l
  }

  /** Step 5 with a wrong password, for the row `u` as it stands after the idle reset. */
  function Failure(u: User, entries: map<string, Entry>, ip: string, now: Time): (o: Outcome)
    ensures o.account.Some? && o.account.value == u.(lockout := o.account.value.lockout)
  {
    var l := u.lockout;
    if l.lastFailedLogin.Some? && now - l.lastFailedLogin.value < 1 then
      Outcome(Some(u), entries, TooFast)
    else
      var attempts := CountOrZero(Lookup(entries, AttemptsKey(ip), now)) + 1;
      var e1 := entries[AttemptsKey(ip) := Entry(Count(attempts), now + IpCounterTimeout)];
      if attempts >= IpCap then
        Outcome(Some(u), e1[BlockKey(ip) := Entry(Flag(true), now + IpBlockTimeout)], IpLimitReached)
      else
        var failed := l.failedLoginAttempts + 1;
        if failed >= FailuresBeforeBlock then
          var until := now + 60 * l.blockDuration;
          Outcome(Some(u.(lockout := Lockout(0, Some(until), Min(l.blockDuration + 5, MaxBlockMinutes), None))), e1, Locked(until))
        else
          Outcome(Some(u.(lockout := l.(failedLoginAttempts := failed, lastFailedLogin := Some(now)))), e1,
                  IncorrectPassword(FailuresBeforeBlock - failed))
  }

  /** Step 6: the right password clears the four fields and both IP keys. */
  function Success(u: User, entries: map<string, Entry>, ip: string): (o: Outcome)
    ensures o.account == Some(u.(lockout := ClearLockout))
  {
    Outcome(Some(u.(lockout := ClearLockout)), entries - {AttemptsKey(ip)} - {BlockKey(ip)},
            if u.isActive then Granted else NoActiveAccount)
  }

  /** Steps 3-6 for an account that exists (the IP flag was already found clear). */
  function CheckAccount(u: User, passwordOk: bool, entries: map<string, Entry>, ip: string, now: Time): (o: Outcome)
    ensures o.account.Some? && o.account.value == u.(lockout := o.account.value.lockout)
  {
    var l := u.lockout;
    if l.blockedUntil.Some? && now < l.blockedUntil.value then
      Outcome(Some(u), entries, AccountBlocked(RemainingMinutes(l.blockedUntil.value - now)))
    else
      var u1 := u.(lockout := IdleReset(l, now));
      if !passwordOk then Failure(u1, entries, ip, now) else Success(u1, entries, ip)
  }

  /** The whole guard, given the account the email names (None when no account has it). */
  function Validate(account: Option<User>, password: string, entries: map<string, Entry>,
                    remoteAddr: Option<string>, now: Time): (o: Outcome)
    ensures o.account.Some? == account.Some?
    ensures o.account.Some? ==> o.account.value == account.value.(lockout := o.account.value.lockout)
  {
    var ip := ClientAddress(remoteAddr);
    if IpFlagged(entries, ip, now) then Outcome(account, entries, IpBlocked)
    else if account.None? then Outcome(None, BumpIp(entries, ip, now), InvalidCredentials)
    else CheckAccount(account.value, account.value.password == Some(password), entries, ip, now)
  }

  // ---------------------------------------------------------------- properties

  /** A set IP flag rejects before the account is even looked at: nothing changes. */
  lemma IpFlagRejectsFirst(account: Option<User>, password: string, entries: map<string, Entry>,
                           remoteAddr: Option<string>, now: Time)
    requires IpFlagged(entries, ClientAddress(remoteAddr), now)
    ensures Validate(account, password, entries, remoteAddr, now) == Outcome(account, entries, IpBlocked)
  {
  }

  /** An unknown email only counts against the IP, answers "Invalid credentials",
      and never raises the IP flag. */
  lemma UnknownEmailCountsOnlyTheIp(password: string, entries: map<string, Entry>, remoteAddr: Option<string>, now: Time)
    requires !IpFlagged(entries, ClientAddress(remoteAddr), now)
    ensures var ip := ClientAddress(remoteAddr);
            var o := Validate(None, password, entries, remoteAddr, now);
            && o.result == InvalidCredentials
            && o.account == None
            && CountOrZero(Lookup(o.entries, AttemptsKey(ip), now)) == CountOrZero(Lookup(entries, AttemptsKey(ip), now)) + 1
            && (forall k :: k != AttemptsKey(ip) ==> Lookup(o.entries, k, now) == Lookup(entries, k, now))
            && !IpFlagged(o.entries, ip, now)
  {
    KeysDistinct(ClientAddress(remoteAddr), ClientAddress(remoteAddr));
  }

  /** While the account block lasts the answer is the floor of the remaining minutes,
      and nothing is written, whether or not the password is right. */
  lemma ActiveBlockWritesNothing(u: User, password: string, entries: map<string, Entry>, remoteAddr: Option<string>, now: Time)
    requires !IpFlagged(entries, ClientAddress(remoteAddr), now)
    requires u.lockout.blockedUntil.Some? && now < u.lockout.blockedUntil.value
    ensures Validate(Some(u), password, entries, remoteAddr, now)
         == Outcome(Some(u), entries, AccountBlocked(((u.lockout.blockedUntil.value - now) % 86400) / 60))
  {
  }

  /** Idle reset: after more than ten quiet minutes a wrong password starts a new streak
      (one failure, duration back to 5) and leaves blocked_until alone. */
  lemma StaleStreakIsForgotten(u: User, password: string, entries: map<string, Entry>, remoteAddr: Option<string>, now: Time)
    requires !IpFlagged(entries, ClientAddress(remoteAddr), now)
    requires u.password != Some(password)
    requires !(u.lockout.blockedUntil.Some? && now < u.lockout.blockedUntil.value)
    requires u.lockout.lastFailedLogin.Some? && now - u.lockout.lastFailedLogin.value > IdleResetSeconds
    requires CountOrZero(Lookup(entries, AttemptsKey(ClientAddress(remoteAddr)), now)) + 1 < IpCap
    ensures var o := Validate(Some(u), password, entries, remoteAddr, now);
            && o.result == IncorrectPassword(2)
            && o.account.value.lockout == Lockout(1, u.lockout.blockedUntil, 5, Some(now))
  {
  }

  /** Debounce: a wrong password within a second of the last failure changes neither the
      account counters nor the IP counter. */
  lemma DebouncedFailureChangesNothing(u: User, password: string, entries: map<string, Entry>, remoteAddr: Option<string>, now: Time)
    requires !IpFlagged(entries, ClientAddress(remoteAddr), now)
    requires u.password != Some(password)
    requires !(u.lockout.blockedUntil.Some? && now < u.lockout.blockedUntil.value)
    requires u.lockout.lastFailedLogin.Some? && now - u.lockout.lastFailedLogin.value < 1
    ensures Validate(Some(u), password, entries, remoteAddr, now) == Outcome(Some(u), entries, TooFast)
  {
  }

  /** The fifth counted failure from one address raises the IP flag for 15 minutes and
      rejects before the account's own failure count moves. */
  lemma IpCapRaisesFlag(u: User, password: string, entries: map<string, Entry>, remoteAddr: Option<string>, now: Time)
    requires !IpFlagged(entries, ClientAddress(remoteAddr), now)
    requires u.password != Some(password)
    requires !(u.lockout.blockedUntil.Some? && now < u.lockout.blockedUntil.value)
    requires !(u.lockout.lastFailedLogin.Some? && now - u.lockout.lastFailedLogin.value < 1)
    requires CountOrZero(Lookup(entries, AttemptsKey(ClientAddress(remoteAddr)), now)) + 1 >= IpCap
    ensures var o := Validate(Some(u), password, entries, remoteAddr, now);
            && o.result == IpLimitReached
            && o.account.value.lockout == IdleReset(u.lockout, now)
            && (forall t :: now <= t < now + IpBlockTimeout ==> IpFlagged(o.entries, ClientAddress(remoteAddr), t))
  {
  }

  /** The third counted failure blocks for the current duration, escalates the duration by
      five minutes up to thirty, and clears the streak. */
  lemma ThirdFailureBlocks(u: User, password: string, entries: map<string, Entry>, remoteAddr: Option<string>, now: Time)
    requires !IpFlagged(entries, ClientAddress(remoteAddr), now)
    requires u.password != Some(password)
    requires !(u.lockout.blockedUntil.Some? && now < u.lockout.blockedUntil.value)
    requires !(u.lockout.lastFailedLogin.Some? && now - u.lockout.lastFailedLogin.value < 1)
    requires CountOrZero(Lookup(entries, AttemptsKey(ClientAddress(remoteAddr)), now)) + 1 < IpCap
    requires IdleReset(u.lockout, now).failedLoginAttempts + 1 >= FailuresBeforeBlock
    ensures var d := IdleReset(u.lockout, now).blockDuration;
            var o := Validate(Some(u), password, entries, remoteAddr, now);
            && o.result == Locked(now + 60 * d)
            && o.account.value.lockout == Lockout(0, Some(now + 60 * d), Min(d + 5, MaxBlockMinutes), None)
  {
  }

  /** A right password (outside an account block) clears all four fields and both IP keys. */
  lemma SuccessClearsEverything(u: User, entries: map<string, Entry>, remoteAddr: Option<string>, now: Time)
    requires u.password.Some?
    requires !IpFlagged(entries, ClientAddress(remoteAddr), now)
    requires !(u.lockout.blockedUntil.Some? && now < u.lockout.blockedUntil.value)
    ensures var ip := ClientAddress(remoteAddr);
            var o := Validate(Some(u), u.password.value, entries, remoteAddr, now);
            && o.account.value.lockout == ClearLockout
            && o.entries == entries - {AttemptsKey(ip), BlockKey(ip)}
            && (o.result == Granted <==> u.isActive)
            && (o.result != Granted ==> o.result == NoActiveAccount)
  {
    var ip := ClientAddress(remoteAddr);
    assert entries - {AttemptsKey(ip)} - {BlockKey(ip)} == entries - {AttemptsKey(ip), BlockKey(ip)};
  }

  /** Every call keeps failures in 0..2 and the block duration in 5..30; a wrong-password
      answer never reports fewer than one attempt left. */
  lemma {:induction false} ValidateKeepsBounds(u: User, password: string, entries: map<string, Entry>,
                                               remoteAddr: Option<string>, now: Time)
    requires LockoutBounds(u.lockout)
    ensures var o := Validate(Some(u), password, entries, remoteAddr, now);
            && LockoutBounds(o.account.value.lockout)
            && (o.result.IncorrectPassword? ==> 1 <= o.result.attemptsLeft <= 2)
            && (o.result.Locked? ==> now + 300 <= o.result.blockedUntil <= now + 1800)
  {
    var ip := ClientAddress(remoteAddr);
    var l := u.lockout;
    if IpFlagged(entries, ip, now) || (l.blockedUntil.Some? && now < l.blockedUntil.value) {
    } else if u.password == Some(password) {
      assert Validate(Some(u), password, entries, remoteAddr, now).account.value.lockout == ClearLockout;
    } else {
      var u1 := u.(lockout := IdleReset(l, now));
      FailureKeepsBounds(u1, entries, ip, now);
      assert Validate(Some(u), password, entries, remoteAddr, now) == Failure(u1, entries, ip, now);
    }
  }

  /** A wrong password keeps the bounds and reports one or two attempts left, or a block
      of five to thirty minutes. */
  lemma FailureKeepsBounds(u: User, entries: map<string, Entry>, ip: string, now: Time)
    requires LockoutBounds(u.lockout)
    ensures var o := Failure(u, entries, ip, now);
            && LockoutBounds(o.account.value.lockout)
            && (o.result.IncorrectPassword? ==> 1 <= o.result.attemptsLeft <= 2)
            && (o.result.Locked? ==> now + 300 <= o.result.blockedUntil <= now + 1800)
  {
  }

  /** Three wrong passwords more than a second apart, from a fresh account and a quiet address,
      give exactly one block, of five minutes, and arm a ten-minute block for next time. */
  lemma {:induction false} EscalationScenario(u: User, wrong: string, entries: map<string, Entry>,
                                              remoteAddr: Option<string>, t1: Time, t2: Time, t3: Time)
    requires u.lockout == ClearLockout && u.password != Some(wrong)
    requires AttemptsKey(ClientAddress(remoteAddr)) !in entries && BlockKey(ClientAddress(remoteAddr)) !in entries
    requires t1 + 1 <= t2 && t2 + 1 <= t3 && t3 - t1 < IpCounterTimeout
    ensures var o1 := Validate(Some(u), wrong, entries, remoteAddr, t1);
            var o2 := Validate(o1.account, wrong, o1.entries, remoteAddr, t2);
            var o3 := Validate(o2.account, wrong, o2.entries, remoteAddr, t3);
            && o1.result == IncorrectPassword(2)
            && o2.result == IncorrectPassword(1)
            && o3.result == Locked(t3 + 300)
            && o3.account.value.lockout == Lockout(0, Some(t3 + 300), 10, None)
  {
    var ip := ClientAddress(remoteAddr);
    KeysDistinct(ip, ip);
    var o1 := Validate(Some(u), wrong, entries, remoteAddr, t1);
    assert o1.entries == entries[AttemptsKey(ip) := Entry(Count(1), t1 + IpCounterTimeout)];
    assert Lookup(o1.entries, AttemptsKey(ip), t2) == Some(Count(1));
    assert !IpFlagged(o1.entries, ip, t2);
    var o2 := Validate(o1.account, wrong, o1.entries, remoteAddr, t2);
    assert o2.entries == entries[AttemptsKey(ip) := Entry(Count(2), t2 + IpCounterTimeout)];
    assert Lookup(o2.entries, AttemptsKey(ip), t3) == Some(Count(2));
    assert !IpFlagged(o2.entries, ip, t3);
  }

  // ---------------------------------------------------------------- the guard as written

  /** `CustomUser.objects.get(email=email)`: the account holding this email, if any. */
  ghost function AccountByEmail(users: map<UserId, User>, email: string): (r: Option<UserId>)
    requires UniqueEmails(users)
    ensures r.Some? ==> r.value in users && users[r.value].email == email
    ensures r.None? ==> forall u :: u in users ==> users[u].email != email
  {
    if exists u :: u in users && users[u].email == email then
      var u :| u in users && users[u].email == email; Some(u)
    else None
  }

  ghost predicate AccountsWithinBounds(users: map<UserId, User>) {
    forall u :: u in users ==> LockoutBounds(users[u].lockout)
  }

  /** The serializer's validate, step by step, against the shared user table and cache. */
  method ValidateLogin(db: Database, cache: Cache, email: string, password: string,
                       remoteAddr: Option<string>, now: Time) returns (r: LoginResult)
    requires db.UsersValid()
    modifies db`users, cache`entries
    ensures db.UsersValid()
    ensures AccountsWithinBounds(old(db.users)) ==> AccountsWithinBounds(db.users)
    ensures var id := AccountByEmail(old(db.users), email);
            var o := Validate(if id.Some? then Some(old(db.users)[id.value]) else None,
                              password, old(cache.entries), remoteAddr, now);
            && r == o.result
            && cache.entries == o.entries
            && db.users == (if id.Some? then old(db.users)[id.value := o.account.value] else old(db.users))
  {
    var ip := ClientAddress(remoteAddr);
    var attemptsKey := AttemptsKey(ip);
    var blockKey := BlockKey(ip);
    ghost var id := AccountByEmail(db.users, email);
    if id.Some? && AccountsWithinBounds(db.users) {
      ValidateKeepsBounds(db.users[id.value], password, cache.entries, remoteAddr, now);
    }

    // 1. the IP flag
    var flag := cache.Get(blockKey, now);
    if IsSet(flag) {
      return IpBlocked;
    }

    // 2. the email
    if !(exists u :: u in db.users && db.users[u].email == email) {
      var count := cache.Get(attemptsKey, now);
      cache.Set(attemptsKey, Count(CountOrZero(count) + 1), IpCounterTimeout, now);
      return InvalidCredentials;
    }
    var uid :| uid in db.users && db.users[uid].email == email;
    assert uid == id.value;
    r := CheckAccountStep(db, cache, uid, password, ip, now);
  }

  /** Steps 3-6 of the guard for the account `uid`, writing the row at each save point. */
  method CheckAccountStep(db: Database, cache: Cache, uid: UserId, password: string, ip: string, now: Time)
    returns (r: LoginResult)
    requires uid in db.users
    modifies db`users, cache`entries
    ensures old(db.UsersValid()) ==> db.UsersValid()
    ensures var o := CheckAccount(old(db.users)[uid], old(db.users)[uid].password == Some(password), old(cache.entries), ip, now);
            && r == o.result
            && cache.entries == o.entries
            && db.users == old(db.users)[uid := o.account.value]
  {
    var user := db.users[uid];

    // 3. the account block
    if user.lockout.blockedUntil.Some? && now < user.lockout.blockedUntil.value {
      assert db.users == db.users[uid := user];
      return AccountBlocked(RemainingMinutes(user.lockout.blockedUntil.value - now));
    }

    // 4. the idle reset
    if user.lockout.lastFailedLogin.Some? && now - user.lockout.lastFailedLogin.value > IdleResetSeconds {
      user := user.(lockout := user.lockout.(failedLoginAttempts := 0, blockDuration := 5));
      db.SaveUser(uid, user);
    } else {
      assert db.users == db.users[uid := user];
    }
    assert user == old(db.users)[uid].(lockout := IdleReset(old(db.users)[uid].lockout, now));

    // 5. the password
    if user.password != Some(password) {
      r := RecordFailure(db, cache, uid, user, ip, now);
      return;
    }

    // 6. success: clear everything, then the token pair (or the inactive-account refusal)
    r := RecordSuccess(db, cache, uid, user, ip);
  }

  /** Step 6; `user` is the row as saved after the idle reset. */
  method RecordSuccess(db: Database, cache: Cache, uid: UserId, user: User, ip: string)
    returns (r: LoginResult)
    requires uid in db.users && db.users[uid] == user
    modifies db`users, cache`entries
    ensures old(db.UsersValid()) ==> db.UsersValid()
    ensures var o := Success(user, old(cache.entries), ip);
            && r == o.result
            && cache.entries == o.entries
            && db.users == old(db.users)[uid := o.account.value]
  {
    var attemptsKey := AttemptsKey(ip);
    var blockKey := BlockKey(ip);
    cache.Delete(attemptsKey);
    cache.Delete(blockKey);
    db.SaveUser(uid, user.(lockout := ClearLockout));
    r := if user.isActive then Granted else NoActiveAccount;
  }

  /** Step 5 with a wrong password; `user` is the row as saved after the idle reset. */
  method RecordFailure(db: Database, cache: Cache, uid: UserId, user: User, ip: string, now: Time)
    returns (r: LoginResult)
    requires uid in db.users && db.users[uid] == user
    modifies db`users, cache`entries
    ensures old(db.UsersValid()) ==> db.UsersValid()
    ensures var o := Failure(user, old(cache.entries), ip, now);
            && r == o.result
            && cache.entries == o.entries
            && db.users == old(db.users)[uid := o.account.value]
  {
    var attemptsKey := AttemptsKey(ip);
    var blockKey := BlockKey(ip);
    if user.lockout.lastFailedLogin.Some? && now - user.lockout.lastFailedLogin.value < 1 {
      assert db.users == db.users[uid := user];
      return TooFast;
    }
    var count := cache.Get(attemptsKey, now);
    var ipAttempts := CountOrZero(count) + 1;
    cache.Set(attemptsKey, Count(ipAttempts), IpCounterTimeout, now);
    if ipAttempts >= IpCap {
      cache.Set(blockKey, Flag(true), IpBlockTimeout, now);
      assert db.users == db.users[uid := user];
      return IpLimitReached;
    }
    var failed := user.lockout.failedLoginAttempts + 1;
    if failed >= FailuresBeforeBlock {
      var blockMinutes := user.lockout.blockDuration;
      var until := now + 60 * blockMinutes;
      db.SaveUser(uid, user.(lockout := Lockout(0, Some(until), Min(blockMinutes + 5, MaxBlockMinutes), None)));
      return Locked(until);
    }
    db.SaveUser(uid, user.(lockout := user.lockout.(failedLoginAttempts := failed, lastFailedLogin := Some(now))));
    return IncorrectPassword(FailuresBeforeBlock - failed);
  }

  // ---------------------------------------------------------------- finding: cache.incr

  datatype IncrResult = Incremented(entries: map<string, Entry>) | KeyNotFound

  /** The unknown-email branch as written: `cache.incr(key)` then `cache.expire(key, 600)`.
      `incr` refuses a key that is absent or expired (ValueError, an HTTP 500). */
  function UnknownEmailAsWritten(entries: map<string, Entry>, ip: string, now: Time): IncrResult {
    match Lookup(entries, AttemptsKey(ip), now)
    case None => KeyNotFound
    case Some(v) => Incremented(entries[AttemptsKey(ip) := Entry(Count(CountOrZero(Some(v)) + 1), now + IpCounterTimeout)])
  }

  /** The first unknown-email attempt from an address with no live counter fails with an
      error instead of counting and answering "Invalid credentials". */
  lemma UnknownEmailFromQuietAddressFails(entries: map<string, Entry>, ip: string, now: Time)
    requires AttemptsKey(ip) !in entries
    ensures UnknownEmailAsWritten(entries, ip, now) == KeyNotFound
  {
  }

  /** The corrected branch (`BumpIp`, used by `Validate`) always counts, starting from zero,
      and agrees with the code as written whenever a live counter exists. */
  lemma BumpIpAlwaysCounts(entries: map<string, Entry>, ip: string, now: Time)
    ensures Lookup(BumpIp(entries, ip, now), AttemptsKey(ip), now)
         == Some(Count(CountOrZero(Lookup(entries, AttemptsKey(ip), now)) + 1))
    ensures Lookup(entries, AttemptsKey(ip), now).Some? ==>
              UnknownEmailAsWritten(entries, ip, now) == Incremented(BumpIp(entries, ip, now))
  {
  }
}

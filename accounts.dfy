/** Accounts: `CustomUserManager.create_user` / `create_superuser` and the
    role-profile creation around a new user (users/models.py, profiles/models.py),
    and the registration and password-reset serializers (users/serializers.py). */
module Accounts {
  import opened Common
  import opened Schema
  import opened Profiles

  // ---------------------------------------------------------------- normalize_email

  /** `str.lower` on one character, for the upper-case letters whose lower case is one
      character at a fixed offset: A-Z, the Latin-1 capitals \U{C0}-\U{DE} except the
      multiplication sign, and the Cyrillic capitals \U{400}-\U{42F}. */
  function LowerChar(c: char): char {
    if 'A' <= c <= 'Z' || ('\U{C0}' <= c <= '\U{DE}' && c != '\U{D7}') || '\U{410}' <= c <= '\U{42F}' then
      (c as int + 32) as char
    else if '\U{400}' <= c <= '\U{40F}' then (c as int + 80) as char
    else c
  }

  function Lower(s: string): (r: string)
    ensures |r| == |s|
    ensures forall i :: 0 <= i < |s| ==> r[i] == LowerChar(s[i])
  {
    if s == [] then [] else [LowerChar(s[0])] + Lower(s[1..])
  }

  /** Index of the last occurrence of `c` in `s`. */
  function LastIndex(s: string, c: char): (r: Option<nat>)
    ensures r.Some? ==> r.value < |s| && s[r.value] == c && forall j :: r.value < j < |s| ==> s[j] != c
    ensures r.None? ==> forall j :: 0 <= j < |s| ==> s[j] != c
  {
    if s == [] then None
    else if s[|s| - 1] == c then Some(|s| - 1)
    else LastIndex(s[..|s| - 1], c)
  }

  /** `normalize_email`: strip surrounding whitespace, split at the last '@' and lower-case
      the domain part; an address without '@' is kept exactly as given. */
  function NormalizeEmail(email: string): (r: string)
    ensures |r| <= |email|
  {
    var s := Trim(email);
    match LastIndex(s, '@')
    case None => email
    case Some(k) => s[..k + 1] + Lower(s[k + 1..])
  }

  /** An address without '@' is kept exactly as given, surrounding whitespace included. */
  lemma {:induction false} NormalizeWithoutAt(email: string)
    ensures !Contains(email, '@') ==> NormalizeEmail(email) == email
  {
    var s := Trim(email);
    if LastIndex(s, '@').Some? {
      var k := LastIndex(s, '@').value;
      TrimIsMiddle(email);
      assert email[LeadingSpaces(email) + k] == s[k] == '@';
    }
  }

  lemma {:induction false} LowerIdempotent(t: string)
    ensures Lower(Lower(t)) == Lower(t)
    ensures Contains(Lower(t), '@') ==> Contains(t, '@')
    ensures t != [] && !IsSpace(t[|t| - 1]) ==> !IsSpace(Lower(t)[|t| - 1])
  {
    var l := Lower(t);
    assert forall i :: 0 <= i < |t| ==> LowerChar(l[i]) == l[i];
    if Contains(l, '@') {
      var i :| 0 <= i < |l| && l[i] == '@';
      assert t[i] == '@';
    }
  }

  /** The last `c` of `head + rest` ends `head` when `head` ends in `c` and `rest` has none. */
  lemma {:induction false} LastIndexOfJoin(head: string, rest: string, c: char)
    requires |head| > 0 && head[|head| - 1] == c && !Contains(rest, c)
    ensures LastIndex(head + rest, c) == Some(|head| - 1)
    decreases |rest|
  {
    var s := head + rest;
    if rest != [] {
      assert s[|s| - 1] == rest[|rest| - 1];
      var shorter := rest[..|rest| - 1];
      LastIndexOfJoin(head, shorter, c);
      assert s[..|s| - 1] == head + shorter;
    }
  }

  /** `normalize_email` once the text is split: surrounding whitespace goes, the local part
      (which may hold further '@'s) is kept, and the domain after the last '@' is lowered. */
  lemma {:induction false} NormalizeJoin(pad: string, local: string, domain: string)
    requires AllSpace(pad) && !Contains(domain, '@')
    requires local == [] || !IsSpace(local[0])
    requires domain == [] || !IsSpace(domain[|domain| - 1])
    ensures NormalizeEmail(pad + local + "@" + domain) == local + "@" + Lower(domain)
  {
    var head := local + "@";
    var m := head + domain;
    assert Stripped(m) by {
      assert m[0] == (if local == [] then '@' else local[0]);
      assert m[|m| - 1] == (if domain == [] then '@' else domain[|domain| - 1]);
    }
    assert pad + local + "@" + domain == pad + m + [];
    TrimOfPadded(pad, m, []);
    LastIndexOfJoin(head, domain, '@');
    assert m[..|head|] == head && m[|head|..] == domain;
  }

  /** The parts `rsplit("@", 1)` gives of a stripped address meet `NormalizeJoin`'s needs,
      also once the domain is lowered. */
  lemma {:induction false} SplitParts(s: string, k: nat)
    requires Stripped(s) && LastIndex(s, '@') == Some(k)
    ensures s == s[..k] + "@" + s[k + 1..]
    ensures !Contains(Lower(s[k + 1..]), '@')
    ensures s[..k] == [] || !IsSpace(s[..k][0])
    ensures Lower(s[k + 1..]) == [] || !IsSpace(Lower(s[k + 1..])[|s| - k - 2])
    ensures Lower(Lower(s[k + 1..])) == Lower(s[k + 1..])
  {
    var local, domain := s[..k], s[k + 1..];
    assert s == local + "@" + domain;
    assert !Contains(domain, '@') by {
      forall i | 0 <= i < |domain| ensures domain[i] != '@' {
        assert domain[i] == s[k + 1 + i];
      }
    }
    LowerIdempotent(domain);
    assert local != [] ==> local[0] == s[0];
    assert domain != [] ==> domain[|domain| - 1] == s[|s| - 1];
  }

  /** The normal form of an address is its stripped local part, '@', and the lowered domain. */
  lemma {:induction false} NormalFormAt(email: string, k: nat)
    requires LastIndex(Trim(email), '@') == Some(k)
    ensures NormalizeEmail(email) == Trim(email)[..k] + "@" + Lower(Trim(email)[k + 1..])
    ensures NormalizeEmail(email)[..k + 1] == Trim(email)[..k + 1]
  {
    var s := Trim(email);
    assert s[..k + 1] == s[..k] + "@";
  }

  /** A normal form is its own normal form. */
  lemma {:induction false} NormalFormIsNormal(local: string, domain: string)
    requires !Contains(Lower(domain), '@') && Lower(Lower(domain)) == Lower(domain)
    requires local == [] || !IsSpace(local[0])
    requires Lower(domain) == [] || !IsSpace(Lower(domain)[|domain| - 1])
    ensures NormalizeEmail(local + "@" + Lower(domain)) == local + "@" + Lower(domain)
  {
    var d := Lower(domain);
    var m := local + "@" + d;
    assert [] + local + "@" + d == m;
    NormalizeJoin([], local, d);
    assert NormalizeEmail(m) == local + "@" + Lower(d);
  }

  /** Normalising twice is normalising once, and the local part is kept as typed once the
      surrounding whitespace is gone. */
  lemma {:induction false} NormalizeEmailIdempotent(email: string)
    ensures NormalizeEmail(NormalizeEmail(email)) == NormalizeEmail(email)
    ensures LastIndex(Trim(email), '@').Some? ==>
              var k := LastIndex(Trim(email), '@').value;
              NormalizeEmail(email)[..k + 1] == Trim(email)[..k + 1]
  {
    var s := Trim(email);
    match LastIndex(s, '@')
    case None =>
    case Some(k) =>
      SplitParts(s, k);
      NormalFormAt(email, k);
      NormalFormIsNormal(s[..k], s[k + 1..]);
  }

  /** Lowering reaches beyond ASCII: the domain "\U{DC}NI.kz" becomes "\U{FC}ni.kz", which stays. */
  lemma {:induction false} ExampleLower()
    ensures Lower("\U{DC}NI.kz") == "\U{FC}ni.kz"
    ensures Lower("\U{FC}ni.kz") == "\U{FC}ni.kz"
  {
    var up, low := "\U{DC}NI.kz", "\U{FC}ni.kz";
    assert forall i :: 0 <= i < |up| ==> LowerChar(up[i]) == low[i];
    assert forall i :: 0 <= i < |low| ==> LowerChar(low[i]) == low[i];
  }

  // ---------------------------------------------------------------- create_user

  /** A new row: active, not staff unless asked, profile not completed, lockout cleared. */
  function NewUser(email: string, password: Option<string>, role: Option<Role>, isStaff: bool, isSuperuser: bool): User {
    User(email, password, role, false, true, isStaff, isSuperuser, ClearLockout)
  }

  predicate EmailTaken(users: map<UserId, User>, email: string) {
    exists v :: v in users && users[v].email == email
  }

  const IntegrityError := "IntegrityError: duplicate key value violates unique constraint on email"

  /** `create_user`: refuse an empty email, normalise it, insert the row (the unique email
      constraint refuses a taken one), then the post_save signal and `CustomUser.save`'s hook
      create the role's profile (only one, and only when absent). */
  method CreateUser(db: Database, email: string, password: Option<string>, role: Option<Role>,
                    isStaff: bool, isSuperuser: bool) returns (r: Result<UserId>)
    requires db.UsersValid()
    modifies db`users, db`nextUserId, db`students, db`supervisors, db`deans
    ensures db.UsersValid()
    ensures email == "" ==> r == Err("Users must have an email address")
    ensures email != "" && EmailTaken(old(db.users), NormalizeEmail(email)) ==> r == Err(IntegrityError)
    ensures r.Err? ==> unchanged(db`users, db`nextUserId, db`students, db`supervisors, db`deans)
    ensures r.Ok? <==> email != "" && !EmailTaken(old(db.users), NormalizeEmail(email))
    ensures r.Ok? ==>
              var uid := r.value;
              && uid == old(db.nextUserId) && uid !in old(db.users)
              && db.users == old(db.users)[uid := NewUser(NormalizeEmail(email), password, role, isStaff, isSuperuser)]
              && !MissingRoleProfile(role, uid, db.students, db.supervisors, db.deans)
              && db.students == (if role == Some(Student) && uid !in old(db.students) then old(db.students)[uid := BlankStudent] else old(db.students))
              && db.supervisors == (if role == Some(Supervisor) && uid !in old(db.supervisors) then old(db.supervisors)[uid := BlankSupervisor] else old(db.supervisors))
              && db.deans == (if role == Some(DeanOffice) && uid !in old(db.deans) then old(db.deans)[uid := BlankDean] else old(db.deans))
  {
    if email == "" {
      return Err("Users must have an email address");
    }
    var normalized := NormalizeEmail(email);
    if exists v :: v in db.users && db.users[v].email == normalized {
      return Err(IntegrityError);
    }
    var u := NewUser(normalized, password, role, isStaff, isSuperuser);
    var uid := db.InsertUser(u);
    // post_save(created=True): profiles/models.py create_user_profile
    EnsureRoleProfile(db, uid);
    // CustomUser.save: the same hook after super().save() returns; the profile is there now
    EnsureRoleProfile(db, uid);
    r := Ok(uid);
  }

  /** `create_superuser`: `setdefault` makes both flags true unless the caller chose. */
  function SuperuserFlags(isStaff: Option<bool>, isSuperuser: Option<bool>): (flags: (bool, bool))
  {
    (if isStaff.Some? then isStaff.value else true, if isSuperuser.Some? then isSuperuser.value else true)
  }

  lemma SuperuserDefaults(isStaff: Option<bool>, isSuperuser: Option<bool>)
    ensures SuperuserFlags(None, None) == (true, true)
    ensures isStaff.Some? ==> SuperuserFlags(isStaff, isSuperuser).0 == isStaff.value
    ensures isSuperuser.Some? ==> SuperuserFlags(isStaff, isSuperuser).1 == isSuperuser.value
  {
  }

  method CreateSuperuser(db: Database, email: string, password: Option<string>, role: Option<Role>,
                         isStaff: Option<bool>, isSuperuser: Option<bool>) returns (r: Result<UserId>)
    requires db.UsersValid()
    modifies db`users, db`nextUserId, db`students, db`supervisors, db`deans
    ensures db.UsersValid()
    ensures r.Ok? <==> email != "" && !EmailTaken(old(db.users), NormalizeEmail(email))
    ensures r.Ok? ==>
              var flags := SuperuserFlags(isStaff, isSuperuser);
              db.users == old(db.users)[r.value := NewUser(NormalizeEmail(email), password, role, flags.0, flags.1)]
  {
    var flags := SuperuserFlags(isStaff, isSuperuser);
    r := CreateUser(db, email, password, role, flags.0, flags.1);
  }

  // ---------------------------------------------------------------- registration

  /** The role a new account gets from the part of its email before the first '@'. */
  function RoleFromEmail(email: string): (r: Role)
  {
    var prefix := BeforeFirst(email, '@');
    if Contains(prefix, '-') then DeanOffice
    else if Contains(prefix, '.') then Supervisor
    else Student
  }

  /** '-' in the local part wins, then '.', and everything else is a student; the domain
      never matters. */
  lemma {:induction false} RoleFromLocalPart(local: string, domain: string)
    requires !Contains(local, '@')
    ensures RoleFromEmail(local + "@" + domain) == RoleFromEmail(local)
    ensures Contains(local, '-') ==> RoleFromEmail(local + "@" + domain) == DeanOffice
    ensures !Contains(local, '-') && Contains(local, '.') ==> RoleFromEmail(local + "@" + domain) == Supervisor
    ensures !Contains(local, '-') && !Contains(local, '.') ==> RoleFromEmail(local + "@" + domain) == Student
  {
    BeforeFirstOfJoin(local, domain);
  }

  lemma {:induction false} BeforeFirstOfJoin(local: string, domain: string)
    requires !Contains(local, '@')
    ensures BeforeFirst(local + "@" + domain, '@') == local
    ensures BeforeFirst(local, '@') == local
  {
    var s := local + "@" + domain;
    var r := BeforeFirst(s, '@');
    assert s[|local|] == '@';
    assert forall i :: 0 <= i < |local| ==> s[i] == local[i];
    assert |r| == |local|;
    assert r == s[..|local|] == local;
  }

  /** A '-' in the local part makes a dean's office account, even with a '.' beside it. */
  lemma DeanExample()
    ensures RoleFromEmail("dean.office-1@uni.kz") == DeanOffice
  {
    assert "dean.office-1@uni.kz" == "dean.office-1" + "@" + "uni.kz";
    RoleFromLocalPart("dean.office-1", "uni.kz");
    assert "dean.office-1"[11] == '-';
  }

  /** A '-' in the domain does not count. */
  lemma StudentExample()
    ensures RoleFromEmail("asmith@uni-x.kz") == Student
  {
    var local := "asmith";
    assert "asmith@uni-x.kz" == local + "@" + "uni-x.kz";
    assert !Contains(local, '@') && !Contains(local, '-') && !Contains(local, '.') by {
      assert forall i :: 0 <= i < |local| ==> local[i] in {'a', 's', 'm', 'i', 't', 'h'};
    }
    RoleFromLocalPart(local, "uni-x.kz");
  }

  /** `UserRegistrationSerializer.validate` (and the reset serializer's): the two passwords must match. */
  function PasswordsMatch(password: string, confirm: string): (r: Result<()>)
    ensures r.Ok? <==> password == confirm
  {
    if password != confirm then Err("Passwords do not match.") else Ok(())
  }

  const EmailExists := "custom user with this email already exists."

  /** `UserRegistrationSerializer.is_valid`. Each character field is stripped of surrounding
      whitespace and checked on its own first: a blank field, and the email's unique validator
      (an exact match against the stored emails). When any field fails, `validate` is not
      reached; the first failing field in declaration order (email, password,
      confirm_password) is reported. Then `validate` compares the stripped passwords. The
      result is the stripped email and password. */
  function ValidateRegistration(users: map<UserId, User>, email: string, password: string, confirm: string): (r: Result<(string, string)>)
    ensures Trim(email) == "" ==> r == Err(Blank)
    ensures Trim(email) != "" && EmailTaken(users, Trim(email)) ==> r == Err(EmailExists)
    ensures Trim(email) != "" && !EmailTaken(users, Trim(email)) && (Trim(password) == "" || Trim(confirm) == "") ==> r == Err(Blank)
    ensures (Trim(email) != "" && !EmailTaken(users, Trim(email)) && Trim(password) != "" && Trim(confirm) != ""
             && Trim(password) != Trim(confirm)) ==> r == Err("Passwords do not match.")
    ensures r.Ok? <==> Trim(email) != "" && !EmailTaken(users, Trim(email)) && Trim(password) != "" && Trim(password) == Trim(confirm)
    ensures r.Ok? ==> r.value == (Trim(email), Trim(password))
  {
    var e, p, c := Trim(email), Trim(password), Trim(confirm);
    if e == "" then Err(Blank)
    else if exists v :: v in users && users[v].email == e then Err(EmailExists)
    else if p == "" || c == "" then Err(Blank)
    else match PasswordsMatch(p, c)
      case Err(m) => Err(m)
      case Ok(_) => Ok((e, p))
  }

  /** RegisterView + UserRegistrationSerializer: validate, derive the role from the stripped
      email, create the user; the serializer's own profile creation then finds the profile
      present. The reply is the new user and its role, or the message of the refusal. */
  method Register(db: Database, email: string, password: string, confirm: string) returns (r: Result<(UserId, Role)>)
    requires db.UsersValid()
    modifies db`users, db`nextUserId, db`students, db`supervisors, db`deans
    ensures db.UsersValid()
    ensures var v := ValidateRegistration(old(db.users), email, password, confirm);
            && (v.Err? ==> r == Err(v.message))
            && (r.Ok? <==> v.Ok? && !EmailTaken(old(db.users), NormalizeEmail(v.value.0)))
    ensures r.Err? ==> unchanged(db`users, db`nextUserId, db`students, db`supervisors, db`deans)
    ensures r.Ok? ==>
              && r.value.1 == RoleFromEmail(Trim(email))
              && r.value.0 == old(db.nextUserId)
              && db.users == old(db.users)[r.value.0 := NewUser(NormalizeEmail(Trim(email)), Some(Trim(password)), Some(r.value.1), false, false)]
              && !MissingRoleProfile(Some(r.value.1), r.value.0, db.students, db.supervisors, db.deans)
  {
    var valid := ValidateRegistration(db.users, email, password, confirm);
    if valid.Err? {
      return Err(valid.message);
    }
    var (e, p) := valid.value;
    var role := RoleFromEmail(e);
    var created := CreateUser(db, e, Some(p), Some(role), false, false);
    if created.Err? {
      return Err(created.message);
    }
    // "Create profile" in the serializer: the profile already exists, so nothing happens
    r := Ok((created.value, role));
  }

  /** A registration whose email is already taken is refused for the email, whatever the
      passwords; and distinct stripped passwords are refused only once every field passed. */
  lemma EmailCheckedBeforePasswords(users: map<UserId, User>, email: string, password: string, confirm: string)
    requires Trim(email) != "" && EmailTaken(users, Trim(email))
    ensures ValidateRegistration(users, email, password, confirm) == Err(EmailExists)
    ensures ValidateRegistration(users, email, "abcdefgh1", "zzz") == Err(EmailExists)
  {
  }

  /** PasswordResetConfirmSerializer: both fields are stripped; the new password must not
      be blank and must have 6 to 100 characters, the confirmation must not be blank, and only
      then does `validate` compare them. The stripped password is the one kept. */
  function ValidateReset(newPassword: string, confirm: string): (r: Result<string>)
    ensures r.Ok? <==> 6 <= |Trim(newPassword)| <= 100 && Trim(newPassword) == Trim(confirm)
    ensures r.Ok? ==> r.value == Trim(newPassword)
    ensures Trim(newPassword) == "" ==> r == Err(Blank)
  {
    var p, c := Trim(newPassword), Trim(confirm);
    if p == "" then Err(Blank)
    else if |p| < 6 then Err("Ensure this field has at least 6 characters.")
    else if |p| > 100 then Err("Ensure this field has no more than 100 characters.")
    else if c == "" then Err(Blank)
    else if p != c then Err("Passwords do not match.")
    else Ok(p)
  }

  lemma {:induction false} TrimOneSpace(w: string)
    requires Stripped(w)
    ensures Trim(w) == w && Trim(" " + w) == w && Trim(w + " ") == w
  {
    assert w == [] + w + [];
    TrimOfPadded([], w, []);
    assert " " + w == " " + w + [];
    TrimOfPadded(" ", w, []);
    assert w + " " == [] + w + " ";
    TrimOfPadded([], w, " ");
  }

  /** Lengths are taken after stripping: five characters behind a space are too short. */
  lemma {:induction false} ResetMeasuresStripped()
    ensures ValidateReset(" abcde", " abcde") == Err("Ensure this field has at least 6 characters.")
  {
    TrimOneSpace("abcde");
    assert " abcde" == " " + "abcde";
  }

  /** The match is taken after stripping: a trailing space does not make two passwords differ. */
  lemma {:induction false} ResetComparesStripped()
    ensures ValidateReset("secret1 ", "secret1") == Ok("secret1")
  {
    TrimOneSpace("secret1");
    assert "secret1 " == "secret1" + " ";
  }
}

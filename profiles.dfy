/** Role profiles (profiles/models.py, profiles/serializers.py) and the
    role-profile hook of `CustomUser.save` (users/models.py): completion
    predicates, skill caps, the one-profile-per-user guard, and the
    serializers' partial updates. */
module Profiles {
  import opened Common
  import opened Schema

  const StudentSkillCap := 5
  const SupervisorSkillCap := 10

  // ---------------------------------------------------------------- completion

  /** A gpa counts only when it is present and non-zero (Python truthiness of a float). */
  predicate GpaGiven(g: Option<real>) {
    g.Some? && g.value != 0.0
  }

  /** `all([first_name, last_name, specialization, gpa]) and skills.exists()` */
  predicate StudentComplete(p: StudentProfile) {
    Truthy(p.firstName) && Truthy(p.lastName) && Truthy(p.specialization) && GpaGiven(p.gpa) && p.skills != {}
  }

  /** `all([first_name, last_name, degree]) and skills.exists()` */
  predicate SupervisorComplete(p: SupervisorProfile) {
    Truthy(p.firstName) && Truthy(p.lastName) && Truthy(p.degree) && p.skills != {}
  }

  /** `all([first_name, last_name, job_role])`: dean-office profiles have no skills. */
  predicate DeanComplete(p: DeanOfficeProfile) {
    Truthy(p.firstName) && Truthy(p.lastName) && Truthy(p.jobRole)
  }

  /** A freshly created profile is never complete, and a gpa of 0 counts as missing. */
  lemma IncompleteProfiles(p: StudentProfile)
    ensures !StudentComplete(BlankStudent) && !SupervisorComplete(BlankSupervisor) && !DeanComplete(BlankDean)
    ensures p.gpa == Some(0.0) ==> !StudentComplete(p)
    ensures p.skills == {} ==> !StudentComplete(p)
  {
  }

  // ---------------------------------------------------------------- skill caps

  /** `clean`: `if self.pk and skills.count() > cap`; a saved profile always has a pk (its user's id). */
  function CleanSkills(pk: UserId, skills: set<SkillId>, cap: nat, message: string): (r: Result<()>)
    ensures r.Err? <==> pk != 0 && |skills| > cap
  {
    if pk != 0 && |skills| > cap then Err(message) else Ok(())
  }

  function CleanStudent(pk: UserId, p: StudentProfile): Result<()> {
    CleanSkills(pk, p.skills, StudentSkillCap, "Students can select a maximum of 5 skills.")
  }

  function CleanSupervisor(pk: UserId, p: SupervisorProfile): Result<()> {
    CleanSkills(pk, p.skills, SupervisorSkillCap, "Supervisors can select a maximum of 10 skills.")
  }

  /** `instance.skills.set(ids)`: the set of the listed ids. */
  function SkillSet(ids: seq<SkillId>): (s: set<SkillId>)
    ensures |s| <= |ids|
  {
    if ids == [] then {} else SkillSet(ids[1..]) + {ids[0]}
  }

  /** The stored set holds exactly the listed ids, whatever their order or repetitions. */
  lemma {:induction false} SkillSetMembers(ids: seq<SkillId>)
    ensures forall x :: x in SkillSet(ids) <==> x in ids
  {
    if ids != [] {
      SkillSetMembers(ids[1..]);
      assert forall x :: x in ids <==> x == ids[0] || x in ids[1..];
    }
  }

  /** The first listed id that names no skill, if any. */
  function FirstUnknown(known: map<SkillId, string>, ids: seq<SkillId>): (r: Option<SkillId>)
    ensures r.Some? ==> r.value !in known && r.value in ids
    ensures r.None? <==> forall k :: 0 <= k < |ids| ==> ids[k] in known
  {
    if ids == [] then None
    else if ids[0] !in known then Some(ids[0])
    else
      var r := FirstUnknown(known, ids[1..]);
      assert forall k :: 1 <= k < |ids| ==> ids[k] == ids[1..][k - 1];
      r
  }

  /** `skill_ids`: every id must name an existing skill, then `validate_skill_ids` caps the list length. */
  function ValidateSkillIds(known: map<SkillId, string>, ids: seq<SkillId>, cap: nat, message: string): (r: Result<set<SkillId>>)
    ensures r.Ok? <==> (forall k :: 0 <= k < |ids| ==> ids[k] in known) && |ids| <= cap
    ensures r.Ok? ==> r.value == SkillSet(ids)
  {
    var unknown := FirstUnknown(known, ids);
    if unknown.Some? then
      Err("Invalid pk \"" + NatToString(unknown.value) + "\" - object does not exist.")
    else if |ids| > cap then Err(message)
    else Ok(SkillSet(ids))
  }

  /** Anything the serializer accepts passes the model's `clean`: the list cap bounds the set. */
  lemma {:induction false} AcceptedSkillsPassClean(known: map<SkillId, string>, ids: seq<SkillId>, pk: UserId, p: StudentProfile, q: SupervisorProfile)
    ensures var r := ValidateSkillIds(known, ids, StudentSkillCap, "Students can select a maximum of 5 skills.");
            r.Ok? ==> CleanStudent(pk, p.(skills := r.value)).Ok?
    ensures var r := ValidateSkillIds(known, ids, SupervisorSkillCap, "Supervisors can select a maximum of 10 skills.");
            r.Ok? ==> CleanSupervisor(pk, q.(skills := r.value)).Ok?
  {
  }

  // ---------------------------------------------------------------- one profile per user

  const ProfileExists := "A profile for this user already exists."

  /** `save`'s guard as written: `if not self.pk and <a profile for this user exists>`.
      The pk of a profile is its user's id. */
  function ProfileSaveAsWritten(pk: UserId, stored: bool): (r: Result<()>)
  {
    if pk == 0 && stored then Err(ProfileExists) else Ok(())
  }

  /** The guard can never fire for a saved user, whose id is at least 1. */
  lemma DuplicateGuardNeverFires(pk: UserId, stored: bool)
    requires pk >= 1
    ensures ProfileSaveAsWritten(pk, stored) == Ok(())
  {
  }

  /** A profile object built in memory for a user, e.g. `StudentProfile(user=u, ...)`; as it
      is unsaved, the skills component of its fields is not used. */
  datatype ProfileObject =
    | StudentObject(student: StudentProfile)
    | SupervisorObject(supervisor: SupervisorProfile)
    | DeanObject(dean: DeanOfficeProfile)

  /** The three profile tables as one value. */
  datatype ProfileTables = ProfileTables(
    students: map<UserId, StudentProfile>, supervisors: map<UserId, SupervisorProfile>,
    deans: map<UserId, DeanOfficeProfile>)

  /** A profile of the object's kind is stored for `uid`. */
  predicate Stored(t: ProfileTables, uid: UserId, obj: ProfileObject) {
    match obj
    case StudentObject(_) => uid in t.students
    case SupervisorObject(_) => uid in t.supervisors
    case DeanObject(_) => uid in t.deans
  }

  /** The row `super().save()` leaves: the object's fields, and the skill rows already linked
      to the pk (an UPDATE keeps them; an INSERT has none). */
  function PlacedStudent(t: ProfileTables, uid: UserId, p: StudentProfile): StudentProfile {
    p.(skills := if uid in t.students then t.students[uid].skills else {})
  }

  function PlacedSupervisor(t: ProfileTables, uid: UserId, p: SupervisorProfile): SupervisorProfile {
    p.(skills := if uid in t.supervisors then t.supervisors[uid].skills else {})
  }

  /** `super().save()` under pk `uid`: an UPDATE of the stored row when there is one,
      otherwise an INSERT. */
  function Placed(t: ProfileTables, uid: UserId, obj: ProfileObject): ProfileTables {
    match obj
    case StudentObject(p) => t.(students := t.students[uid := PlacedStudent(t, uid, p)])
    case SupervisorObject(p) => t.(supervisors := t.supervisors[uid := PlacedSupervisor(t, uid, p)])
    case DeanObject(p) => t.(deans := t.deans[uid := p])
  }

  /** What `update_profile_completion` computes right after that write. */
  function SavedComplete(t: ProfileTables, uid: UserId, obj: ProfileObject): bool {
    match obj
    case StudentObject(p) => StudentComplete(PlacedStudent(t, uid, p))
    case SupervisorObject(p) => SupervisorComplete(PlacedSupervisor(t, uid, p))
    case DeanObject(p) => DeanComplete(p)
  }

  /** The role-profile hook of the following `user.save()` on the tables. */
  function WithRoleProfile(t: ProfileTables, role: Option<Role>, uid: UserId): ProfileTables {
    if !MissingRoleProfile(role, uid, t.students, t.supervisors, t.deans) then t
    else match role
      case Some(Student) => t.(students := t.students[uid := BlankStudent])
      case Some(Supervisor) => t.(supervisors := t.supervisors[uid := BlankSupervisor])
      case Some(DeanOffice) => t.(deans := t.deans[uid := BlankDean])
      case None => t
  }

  /** The tables after a save of `obj` for `uid`, whose user has `role`, as written. */
  function SavedAsWritten(t: ProfileTables, uid: UserId, obj: ProfileObject, role: Option<Role>): ProfileTables {
    if ProfileSaveAsWritten(uid, Stored(t, uid, obj)).Err? then t else WithRoleProfile(Placed(t, uid, obj), role, uid)
  }

  /** The tables after a save with the guard as intended: a stored profile refuses it. */
  function Saved(t: ProfileTables, uid: UserId, obj: ProfileObject, role: Option<Role>): ProfileTables {
    if Stored(t, uid, obj) then t else WithRoleProfile(Placed(t, uid, obj), role, uid)
  }

  /** Every stored profile of `t` is still stored, unchanged, in `u`. */
  ghost predicate Kept(t: ProfileTables, u: ProfileTables) {
    && (forall v :: v in t.students ==> v in u.students && u.students[v] == t.students[v])
    && (forall v :: v in t.supervisors ==> v in u.supervisors && u.supervisors[v] == t.supervisors[v])
    && (forall v :: v in t.deans ==> v in u.deans && u.deans[v] == t.deans[v])
  }

  /** As written, saving a new student object for a user who has a profile replaces that
      profile's fields; only its skill rows stay. */
  lemma SaveAsWrittenOverwrites(t: ProfileTables, uid: UserId, p: StudentProfile, role: Option<Role>)
    requires uid >= 1 && uid in t.students
    ensures SavedAsWritten(t, uid, StudentObject(p), role).students[uid] == p.(skills := t.students[uid].skills)
    ensures p.(skills := t.students[uid].skills) != t.students[uid] ==> !Kept(t, SavedAsWritten(t, uid, StudentObject(p), role))
  {
    DuplicateGuardNeverFires(uid, true);
  }

  /** With the intended guard a save never alters a stored profile; it stores the object only
      where its kind was missing, and then exactly the object's fields with no skills. */
  lemma {:induction false} SaveKeepsStoredProfiles(t: ProfileTables, uid: UserId, obj: ProfileObject, role: Option<Role>)
    ensures Kept(t, Saved(t, uid, obj, role))
    ensures Stored(Saved(t, uid, obj, role), uid, obj)
    ensures !Stored(t, uid, obj) ==> match obj
              case StudentObject(p) => Saved(t, uid, obj, role).students[uid] == p.(skills := {})
              case SupervisorObject(p) => Saved(t, uid, obj, role).supervisors[uid] == p.(skills := {})
              case DeanObject(p) => Saved(t, uid, obj, role).deans[uid] == p
  {
    if !Stored(t, uid, obj) {
      var placed := Placed(t, uid, obj);
      assert Kept(t, placed);
      assert Stored(placed, uid, obj);
      var hooked := WithRoleProfile(placed, role, uid);
      assert Kept(placed, hooked);
    }
  }

  /** A run of saves with the intended guard: each is refused or adds a profile. */
  function SaveAll(t: ProfileTables, saves: seq<(UserId, ProfileObject, Option<Role>)>): ProfileTables
    decreases |saves|
  {
    if saves == [] then t
    else SaveAll(Saved(t, saves[0].0, saves[0].1, saves[0].2), saves[1..])
  }

  /** However many new profile objects are saved afterwards, a stored profile survives. */
  lemma {:induction false} StoredProfileSurvives(t: ProfileTables, saves: seq<(UserId, ProfileObject, Option<Role>)>)
    ensures Kept(t, SaveAll(t, saves))
    decreases |saves|
  {
    if saves != [] {
      var next := Saved(t, saves[0].0, saves[0].1, saves[0].2);
      SaveKeepsStoredProfiles(t, saves[0].0, saves[0].1, saves[0].2);
      StoredProfileSurvives(next, saves[1..]);
    }
  }

  // ---------------------------------------------------------------- the role-profile hook

  /** The user's role names a profile kind the user does not have yet. */
  predicate MissingRoleProfile(role: Option<Role>, uid: UserId, students: map<UserId, StudentProfile>,
                               supervisors: map<UserId, SupervisorProfile>, deans: map<UserId, DeanOfficeProfile>)
  {
    match role
    case Some(Student) => uid !in students
    case Some(Supervisor) => uid !in supervisors
    case Some(DeanOffice) => uid !in deans
    case None => false
  }

  /** The hook run on every user save (and, for a new user, the post_save signal):
      create the role's profile when it is absent. Creating it saves the blank profile,
      whose completion recompute writes `is_profile_completed = False`. */
  method EnsureRoleProfile(db: Database, uid: UserId)
    requires uid in db.users
    modifies db`students, db`supervisors, db`deans, db`users
    ensures old(db.UsersValid()) ==> db.UsersValid()
    ensures var role := old(db.users[uid].role);
            var missing := MissingRoleProfile(role, uid, old(db.students), old(db.supervisors), old(db.deans));
            && db.students == (if missing && role == Some(Student) then old(db.students)[uid := BlankStudent] else old(db.students))
            && db.supervisors == (if missing && role == Some(Supervisor) then old(db.supervisors)[uid := BlankSupervisor] else old(db.supervisors))
            && db.deans == (if missing && role == Some(DeanOffice) then old(db.deans)[uid := BlankDean] else old(db.deans))
            && db.users == (if missing then old(db.users)[uid := old(db.users)[uid].(isProfileCompleted := false)] else old(db.users))
    ensures !MissingRoleProfile(db.users[uid].role, uid, db.students, db.supervisors, db.deans)
  {
    var u := db.users[uid];
    if u.role == Some(Student) && uid !in db.students {
      db.students := db.students[uid := BlankStudent];
    } else if u.role == Some(Supervisor) && uid !in db.supervisors {
      db.supervisors := db.supervisors[uid := BlankSupervisor];
    } else if u.role == Some(DeanOffice) && uid !in db.deans {
      db.deans := db.deans[uid := BlankDean];
    } else {
      return;
    }
    db.SaveUser(uid, u.(isProfileCompleted := false));
  }

  /** Running the hook a second time changes nothing: saving a user repeatedly never
      creates a second profile, and a user without a role never gets one. */
  lemma HookIsIdempotent(role: Option<Role>, uid: UserId, students: map<UserId, StudentProfile>,
                         supervisors: map<UserId, SupervisorProfile>, deans: map<UserId, DeanOfficeProfile>)
    ensures role == None ==> !MissingRoleProfile(role, uid, students, supervisors, deans)
    ensures role == Some(Student) ==> !MissingRoleProfile(role, uid, students[uid := BlankStudent], supervisors, deans)
    ensures role == Some(Supervisor) ==> !MissingRoleProfile(role, uid, students, supervisors[uid := BlankSupervisor], deans)
    ensures role == Some(DeanOffice) ==> !MissingRoleProfile(role, uid, students, supervisors, deans[uid := BlankDean])
  {
  }

  /** `update_profile_completion`: write the flag, then `user.save()`, which runs the hook. */
  method SetCompletion(db: Database, uid: UserId, complete: bool)
    requires uid in db.users
    modifies db`students, db`supervisors, db`deans, db`users
    ensures old(db.UsersValid()) ==> db.UsersValid()
    ensures var role := old(db.users[uid].role);
            var missing := MissingRoleProfile(role, uid, old(db.students), old(db.supervisors), old(db.deans));
            && db.students == (if missing && role == Some(Student) then old(db.students)[uid := BlankStudent] else old(db.students))
            && db.supervisors == (if missing && role == Some(Supervisor) then old(db.supervisors)[uid := BlankSupervisor] else old(db.supervisors))
            && db.deans == (if missing && role == Some(DeanOffice) then old(db.deans)[uid := BlankDean] else old(db.deans))
            && db.users == old(db.users)[uid := old(db.users)[uid].(isProfileCompleted := complete && !missing)]
    ensures !MissingRoleProfile(db.users[uid].role, uid, db.students, db.supervisors, db.deans)
  {
    db.SaveUser(uid, db.users[uid].(isProfileCompleted := complete));
    EnsureRoleProfile(db, uid);
  }

  /** The user table with one user's completion flag set. */
  function WithCompletion(users: map<UserId, User>, uid: UserId, complete: bool): map<UserId, User>
    requires uid in users
  {
    users[uid := users[uid].(isProfileCompleted := complete)]
  }

  /** Only the last completion write counts. */
  lemma CompletionOverwrites(users: map<UserId, User>, uid: UserId, a: bool, b: bool)
    requires uid in users
    ensures WithCompletion(WithCompletion(users, uid, a), uid, b) == WithCompletion(users, uid, b)
  {
  }

  /** `update_profile_completion` for a user whose role profile exists: the hook does nothing. */
  method SetCompletionOfProfiled(db: Database, uid: UserId, complete: bool)
    requires uid in db.users && !MissingRoleProfile(db.users[uid].role, uid, db.students, db.supervisors, db.deans)
    modifies db`students, db`supervisors, db`deans, db`users
    ensures old(db.UsersValid()) ==> db.UsersValid()
    ensures db.students == old(db.students) && db.supervisors == old(db.supervisors) && db.deans == old(db.deans)
    ensures db.users == WithCompletion(old(db.users), uid, complete)
  {
    SetCompletion(db, uid, complete);
  }

  /** `super().save()` of a profile object: the placed row replaces or adds that kind's row. */
  method Place(db: Database, uid: UserId, obj: ProfileObject)
    modifies db`students, db`supervisors, db`deans
    ensures ProfileTables(db.students, db.supervisors, db.deans)
            == Placed(ProfileTables(old(db.students), old(db.supervisors), old(db.deans)), uid, obj)
  {
    var t := ProfileTables(db.students, db.supervisors, db.deans);
    match obj
    case StudentObject(p) => db.students := db.students[uid := PlacedStudent(t, uid, p)];
    case SupervisorObject(p) => db.supervisors := db.supervisors[uid := PlacedSupervisor(t, uid, p)];
    case DeanObject(p) => db.deans := db.deans[uid := p];
  }

  /** `save()` of a new profile object for user `uid`, with the guard as written: unless the
      guard fires, the row is written, the completion is recomputed on it and the user saved. */
  method SaveProfileObjectAsWritten(db: Database, uid: UserId, obj: ProfileObject) returns (r: Result<()>)
    requires uid in db.users
    modifies db`students, db`supervisors, db`deans, db`users
    ensures old(db.UsersValid()) ==> db.UsersValid()
    ensures var t := ProfileTables(old(db.students), old(db.supervisors), old(db.deans));
            var role := old(db.users[uid].role);
            var placed := Placed(t, uid, obj);
            && r == ProfileSaveAsWritten(uid, Stored(t, uid, obj))
            && ProfileTables(db.students, db.supervisors, db.deans) == SavedAsWritten(t, uid, obj, role)
            && db.users == (if r.Err? then old(db.users) else
                 old(db.users)[uid := old(db.users[uid]).(isProfileCompleted :=
                   SavedComplete(t, uid, obj) && !MissingRoleProfile(role, uid, placed.students, placed.supervisors, placed.deans))])
  {
    var t := ProfileTables(db.students, db.supervisors, db.deans);
    r := ProfileSaveAsWritten(uid, Stored(t, uid, obj));
    if r.Err? {
      return;
    }
    Place(db, uid, obj);
    SetCompletion(db, uid, SavedComplete(t, uid, obj));
  }

  /** `save()` of a new profile object with the guard as intended: a user who already has a
      profile of that kind is refused and nothing changes; otherwise as written. */
  method SaveProfileObject(db: Database, uid: UserId, obj: ProfileObject) returns (r: Result<()>)
    requires uid in db.users
    modifies db`students, db`supervisors, db`deans, db`users
    ensures old(db.UsersValid()) ==> db.UsersValid()
    ensures var t := ProfileTables(old(db.students), old(db.supervisors), old(db.deans));
            var role := old(db.users[uid].role);
            var placed := Placed(t, uid, obj);
            && (r.Err? <==> Stored(t, uid, obj))
            && (r.Err? ==> r.message == ProfileExists)
            && ProfileTables(db.students, db.supervisors, db.deans) == Saved(t, uid, obj, role)
            && db.users == (if r.Err? then old(db.users) else
                 old(db.users)[uid := old(db.users[uid]).(isProfileCompleted :=
                   SavedComplete(t, uid, obj) && !MissingRoleProfile(role, uid, placed.students, placed.supervisors, placed.deans))])
  {
    var t := ProfileTables(db.students, db.supervisors, db.deans);
    if Stored(t, uid, obj) {
      return Err(ProfileExists);
    }
    Place(db, uid, obj);
    SetCompletion(db, uid, SavedComplete(t, uid, obj));
    r := Ok(());
  }

  // ---------------------------------------------------------------- serializer updates

  /** The attributes a request supplies; `None` means "not in the request". */
  datatype StudentPatch = StudentPatch(
    firstName: Option<Option<string>>, lastName: Option<Option<string>>,
    specialization: Option<Option<string>>, gpa: Option<Option<real>>, skillIds: Option<seq<SkillId>>)

  datatype SupervisorPatch = SupervisorPatch(
    firstName: Option<Option<string>>, lastName: Option<Option<string>>,
    degree: Option<Option<string>>, skillIds: Option<seq<SkillId>>)

  datatype DeanPatch = DeanPatch(
    firstName: Option<Option<string>>, lastName: Option<Option<string>>, jobRole: Option<Option<string>>)

  function Pick<T>(supplied: Option<T>, current: T): T {
    if supplied.Some? then supplied.value else current
  }

  /** The `setattr` loop: exactly the supplied attributes change. */
  function PatchStudent(p: StudentProfile, patch: StudentPatch): StudentProfile {
    p.(firstName := Pick(patch.firstName, p.firstName), lastName := Pick(patch.lastName, p.lastName),
       specialization := Pick(patch.specialization, p.specialization), gpa := Pick(patch.gpa, p.gpa))
  }

  function PatchSupervisor(p: SupervisorProfile, patch: SupervisorPatch): SupervisorProfile {
    p.(firstName := Pick(patch.firstName, p.firstName), lastName := Pick(patch.lastName, p.lastName),
       degree := Pick(patch.degree, p.degree))
  }

  function PatchDean(p: DeanOfficeProfile, patch: DeanPatch): DeanOfficeProfile {
    p.(firstName := Pick(patch.firstName, p.firstName), lastName := Pick(patch.lastName, p.lastName),
       jobRole := Pick(patch.jobRole, p.jobRole))
  }

  /** An update writes exactly the supplied attributes, keeps the skills, and applying the
      same patch twice is the same as applying it once. */
  lemma PatchWritesOnlySupplied(p: StudentProfile, patch: StudentPatch, q: SupervisorProfile, sp: SupervisorPatch,
                                d: DeanOfficeProfile, dp: DeanPatch)
    ensures var r := PatchStudent(p, patch);
            && (patch.firstName.None? ==> r.firstName == p.firstName) && (patch.firstName.Some? ==> r.firstName == patch.firstName.value)
            && (patch.lastName.None? ==> r.lastName == p.lastName) && (patch.lastName.Some? ==> r.lastName == patch.lastName.value)
            && (patch.specialization.None? ==> r.specialization == p.specialization)
            && (patch.specialization.Some? ==> r.specialization == patch.specialization.value)
            && (patch.gpa.None? ==> r.gpa == p.gpa) && (patch.gpa.Some? ==> r.gpa == patch.gpa.value)
            && r.skills == p.skills
            && PatchStudent(r, patch) == r
    ensures var r := PatchSupervisor(q, sp);
            && (sp.degree.None? ==> r.degree == q.degree) && (sp.degree.Some? ==> r.degree == sp.degree.value)
            && r.skills == q.skills && PatchSupervisor(r, sp) == r
    ensures var r := PatchDean(d, dp);
            && (dp.jobRole.None? ==> r.jobRole == d.jobRole) && (dp.jobRole.Some? ==> r.jobRole == dp.jobRole.value)
            && PatchDean(r, dp) == r
  {
  }

  /** `job_role` accepts the two declared choices, or blank/null. */
  predicate JobRoleAllowed(v: Option<string>) {
    v.None? || v.value == "" || v.value == "manager" || v.value == "dean"
  }

  /** StudentProfileSerializer: validate, then `update` (save, optional skill replacement,
      completion recompute). The answer is the stored profile or the validation error.
      The profile view picks this serializer only for a user whose role is Student, so the
      role-profile hook inside each completion recompute finds the profile present. */
  method UpdateStudentProfile(db: Database, uid: UserId, patch: StudentPatch) returns (r: Result<StudentProfile>)
    requires uid in db.students && uid in db.users && db.users[uid].role == Some(Student)
    modifies db`students, db`supervisors, db`deans, db`users
    ensures r.Ok? <==> patch.skillIds.None? || ValidateSkillIds(old(db.skillNames), patch.skillIds.value, StudentSkillCap, "").Ok?
    ensures r.Err? ==> db.students == old(db.students) && db.users == old(db.users)
    ensures r.Ok? ==>
              var p := PatchStudent(old(db.students[uid]), patch);
              var fin := if patch.skillIds.Some? then p.(skills := SkillSet(patch.skillIds.value)) else p;
              && r.value == fin
              && db.students == old(db.students)[uid := fin]
              && db.users == WithCompletion(old(db.users), uid, StudentComplete(fin))
              && |fin.skills| <= (if patch.skillIds.Some? then StudentSkillCap else |old(db.students[uid]).skills|)
  {
    var skills: Option<set<SkillId>> := None;
    if patch.skillIds.Some? {
      var v := ValidateSkillIds(db.skillNames, patch.skillIds.value, StudentSkillCap, "Students can select a maximum of 5 skills.");
      if v.Err? {
        return Err(v.message);
      }
      skills := Some(v.value);
    }
    var p := PatchStudent(db.students[uid], patch);
    // instance.save(): the guard does not fire for a stored profile, then the row is written
    // and completion recomputed
    db.students := db.students[uid := p];
    SetCompletionOfProfiled(db, uid, StudentComplete(p));
    ghost var first := StudentComplete(p);
    if skills.Some? {
      p := p.(skills := skills.value);
      db.students := db.students[uid := p];
    }
    SetCompletionOfProfiled(db, uid, StudentComplete(p));
    CompletionOverwrites(old(db.users), uid, first, StudentComplete(p));
    r := Ok(p);
  }

  /** SupervisorProfileSerializer: the same steps with the cap of 10 and `degree`. */
  method UpdateSupervisorProfile(db: Database, uid: UserId, patch: SupervisorPatch) returns (r: Result<SupervisorProfile>)
    requires uid in db.supervisors && uid in db.users && db.users[uid].role == Some(Supervisor)
    modifies db`students, db`supervisors, db`deans, db`users
    ensures r.Ok? <==> patch.skillIds.None? || ValidateSkillIds(old(db.skillNames), patch.skillIds.value, SupervisorSkillCap, "").Ok?
    ensures r.Err? ==> db.supervisors == old(db.supervisors) && db.users == old(db.users)
    ensures r.Ok? ==>
              var p := PatchSupervisor(old(db.supervisors[uid]), patch);
              var fin := if patch.skillIds.Some? then p.(skills := SkillSet(patch.skillIds.value)) else p;
              && r.value == fin
              && db.supervisors == old(db.supervisors)[uid := fin]
              && db.users == WithCompletion(old(db.users), uid, SupervisorComplete(fin))
              && |fin.skills| <= (if patch.skillIds.Some? then SupervisorSkillCap else |old(db.supervisors[uid]).skills|)
  {
    var skills: Option<set<SkillId>> := None;
    if patch.skillIds.Some? {
      var v := ValidateSkillIds(db.skillNames, patch.skillIds.value, SupervisorSkillCap, "Supervisors can select a maximum of 10 skills.");
      if v.Err? {
        return Err(v.message);
      }
      skills := Some(v.value);
    }
    var p := PatchSupervisor(db.supervisors[uid], patch);
    db.supervisors := db.supervisors[uid := p];
    SetCompletionOfProfiled(db, uid, SupervisorComplete(p));
    ghost var first := SupervisorComplete(p);
    if skills.Some? {
      p := p.(skills := skills.value);
      db.supervisors := db.supervisors[uid := p];
    }
    SetCompletionOfProfiled(db, uid, SupervisorComplete(p));
    CompletionOverwrites(old(db.users), uid, first, SupervisorComplete(p));
    r := Ok(p);
  }

  /** DeanOfficeProfileSerializer: no skills; `job_role` must be one of its choices. */
  method UpdateDeanProfile(db: Database, uid: UserId, patch: DeanPatch) returns (r: Result<DeanOfficeProfile>)
    requires uid in db.deans && uid in db.users && db.users[uid].role == Some(DeanOffice)
    modifies db`students, db`supervisors, db`deans, db`users
    ensures r.Ok? <==> patch.jobRole.None? || JobRoleAllowed(patch.jobRole.value)
    ensures r.Err? ==> db.deans == old(db.deans) && db.users == old(db.users)
    ensures r.Ok? ==>
              var fin := PatchDean(old(db.deans[uid]), patch);
              && r.value == fin
              && db.deans == old(db.deans)[uid := fin]
              && db.users == WithCompletion(old(db.users), uid, DeanComplete(fin))
  {
    if patch.jobRole.Some? && !JobRoleAllowed(patch.jobRole.value) {
      return Err("\"" + Text(patch.jobRole.value) + "\" is not a valid choice.");
    }
    var p := PatchDean(db.deans[uid], patch);
    db.deans := db.deans[uid := p];
    SetCompletionOfProfiled(db, uid, DeanComplete(p));
    SetCompletionOfProfiled(db, uid, DeanComplete(p));
    CompletionOverwrites(old(db.users), uid, DeanComplete(p), DeanComplete(p));
    r := Ok(p);
  }
}

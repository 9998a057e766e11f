/** The Team model's own operations (teams/models.py): skill coverage, applying to a
    supervisor, approval and rejection; the cascades that deleting a team sets off;
    and the team-formation facts the views keep between them. */
module TeamModels {
  import opened Common
  import opened Schema

  // ---------------------------------------------------------------- queries shared by the views

  /** `Team.objects.filter(members=student).exists()` */
  predicate InTeam(teams: map<TeamId, Team>, s: UserId) {
    exists t :: t in teams && s in teams[t].members
  }

  /** `JoinRequest.objects.filter(student=student, status="pending").exists()` */
  predicate HasPendingJoin(jrs: map<nat, JoinRequest>, s: UserId) {
    exists r :: r in jrs && jrs[r].student == s && jrs[r].status == RequestPending
  }

  // ---------------------------------------------------------------- the formation invariant

  /** A student has at most one pending join request. */
  ghost predicate OnePendingPerStudent(jrs: map<nat, JoinRequest>) {
    forall a, b ::
      (a in jrs && b in jrs && jrs[a].student == jrs[b].student &&
       jrs[a].status == RequestPending && jrs[b].status == RequestPending) ==> a == b
  }

  /** A student with a pending join request is in no team. */
  ghost predicate PendingMeansTeamless(jrs: map<nat, JoinRequest>, teams: map<TeamId, Team>) {
    forall r :: r in jrs && jrs[r].status == RequestPending ==> !InTeam(teams, jrs[r].student)
  }

  /** A student is a member of at most one team. */
  ghost predicate OneTeamPerStudent(teams: map<TeamId, Team>) {
    forall a, b, s :: a in teams && b in teams && s in teams[a].members && s in teams[b].members ==> a == b
  }

  /** A team has at most one pending supervisor request. */
  ghost predicate OnePendingPerTeam(srs: map<nat, SupervisorRequest>) {
    forall a, b ::
      (a in srs && b in srs && srs[a].team == srs[b].team &&
       srs[a].status == RequestPending && srs[b].status == RequestPending) ==> a == b
  }

  /** What the guards of JoinTeamView, ThesisTopicSerializer.validate and AcceptJoinRequestView
      keep true together. */
  ghost predicate Formation(teams: map<TeamId, Team>, jrs: map<nat, JoinRequest>) {
    OnePendingPerStudent(jrs) && PendingMeansTeamless(jrs, teams) && OneTeamPerStudent(teams)
  }

  /** The tables' integrity constraints together with the formation facts. */
  ghost predicate Consistent(s: Tables) {
    TablesValid(s) && Formation(s.teams, s.joinRequests) && OnePendingPerTeam(s.supervisorRequests)
  }

  /** Under the invariant, the team a student belongs to is determined. */
  lemma TeamOfStudentIsUnique(teams: map<TeamId, Team>, jrs: map<nat, JoinRequest>, s: UserId, a: TeamId, b: TeamId)
    requires Formation(teams, jrs)
    requires a in teams && b in teams && s in teams[a].members && s in teams[b].members
    ensures a == b
  {
  }

  // ---------------------------------------------------------------- has_required_skills

  /** The names of the skills the members have. */
  function MemberSkillNames(members: set<UserId>, students: map<UserId, StudentProfile>, names: map<SkillId, string>): set<string> {
    set s, k | s in members && s in students && k in students[s].skills && k in names :: names[k]
  }

  /** The names of the skills the topic requires. */
  function RequiredSkillNames(topic: Topic, names: map<SkillId, string>): set<string> {
    set k | k in topic.requiredSkills && k in names :: names[k]
  }

  /** `has_required_skills`: at least four of the topic's required skill names are covered
      by the members, counting names, not skill rows. */
  predicate HasRequiredSkills(team: Team, topic: Topic, students: map<UserId, StudentProfile>, names: map<SkillId, string>) {
    |MemberSkillNames(team.members.Keys, students, names) * RequiredSkillNames(topic, names)| >= 4
  }

  lemma {:induction false} NamesAtMostSkills(ks: set<SkillId>, names: map<SkillId, string>)
    ensures |set k | k in ks && k in names :: names[k]| <= |ks|
    decreases |ks|
  {
    var img := set k | k in ks && k in names :: names[k];
    if ks != {} {
      var x :| x in ks;
      var rest := ks - {x};
      NamesAtMostSkills(rest, names);
      var imgRest := set k | k in rest && k in names :: names[k];
      assert img <= imgRest + (if x in names then {names[x]} else {});
      SubsetCard(img, imgRest + (if x in names then {names[x]} else {}));
    } else {
      assert img == {};
    }
  }

  /** Coverage needs a topic that requires at least four skills, and members who
      together have at least four distinct skill names. */
  lemma CoverageNeedsFourRequiredSkills(team: Team, topic: Topic, students: map<UserId, StudentProfile>, names: map<SkillId, string>)
    requires HasRequiredSkills(team, topic, students, names)
    ensures |topic.requiredSkills| >= 4
    ensures |MemberSkillNames(team.members.Keys, students, names)| >= 4
  {
    var m := MemberSkillNames(team.members.Keys, students, names);
    var r := RequiredSkillNames(topic, names);
    SubsetCard(m * r, r);
    SubsetCard(m * r, m);
    NamesAtMostSkills(topic.requiredSkills, names);
  }

  /** A team that covers its topic still covers it with more members. */
  lemma CoverageGrowsWithMembers(team: Team, more: map<UserId, Time>, topic: Topic,
                                 students: map<UserId, StudentProfile>, names: map<SkillId, string>)
    requires team.members.Keys <= more.Keys
    requires HasRequiredSkills(team, topic, students, names)
    ensures HasRequiredSkills(team.(members := more), topic, students, names)
  {
    var r := RequiredSkillNames(topic, names);
    var small := MemberSkillNames(team.members.Keys, students, names);
    var large := MemberSkillNames(more.Keys, students, names);
    assert small <= large;
    SubsetCard(small * r, large * r);
  }

  // ---------------------------------------------------------------- apply / approve / reject

  /** `apply_to_supervisor`: refuse a team whose skills fall short, else mark it pending. */
  method ApplyToSupervisor(db: Database, t: TeamId) returns (r: Result<()>)
    requires t in db.teams && db.teams[t].topic in db.topics
    modifies db`teams
    ensures old(db.TeamsValid()) ==> db.TeamsValid()
    ensures r.Ok? <==> HasRequiredSkills(old(db.teams[t]), db.topics[old(db.teams[t]).topic], db.students, db.skillNames)
    ensures r.Err? ==> r.message == "Team does not meet the minimum required skills." && db.teams == old(db.teams)
    ensures r.Ok? ==> db.teams == old(db.teams)[t := old(db.teams[t]).(status := Pending)]
  {
    var team := db.teams[t];
    if !HasRequiredSkills(team, db.topics[team.topic], db.students, db.skillNames) {
      return Err("Team does not meet the minimum required skills.");
    }
    db.teams := db.teams[t := team.(status := Pending)];
    r := Ok(());
  }

  /** The teams a supervisor profile is the supervisor of (`Team.supervisor`'s reverse relation). */
  function SupervisedTeams(teams: map<TeamId, Team>, sup: UserId): set<TeamId> {
    set t | t in teams && teams[t].supervisor == Some(sup)
  }

  /** The team as `approve_team` leaves it: the supervisor assigned and made owner (a
      supervisor profile's key is its user's key), the status approved. */
  function ApprovedBy(team: Team, sup: UserId): (a: Team)
    ensures a.members == team.members && a.topic == team.topic
  {
    team.(supervisor := Some(sup), owner := sup, status := Approved)
  }

  const NoTeamsAttribute := "AttributeError: 'SupervisorProfile' object has no attribute 'teams'"

  /** `approve_team` as written: after the status check it asks for `supervisor.teams`, a
      relation SupervisorProfile does not have (the reverse of `Team.supervisor` is `team_set`;
      `teams` is the reverse of `Team.members`, declared on StudentProfile), so every call on
      a pending team raises. */
  function ApproveTeamAsWritten(team: Team, sup: UserId): (r: Result<Team>)
    ensures r.Err?
  {
    if team.status != Pending then Err("Only pending teams can be approved.")
    else Err(NoTeamsAttribute)
  }

  /** A pending team and a supervisor with no teams yet: the approval the method exists
      for raises as written, while the corrected limit check lets it through. */
  lemma ApprovalAlwaysRaisesAsWritten(topic: TopicId, owner: UserId, sup: UserId)
    ensures var team := Team(topic, owner, map[], None, Pending);
            && ApproveTeamAsWritten(team, sup) == Err(NoTeamsAttribute)
            && |SupervisedTeams(map[0 := team], sup)| < 10
  {
    var team := Team(topic, owner, map[], None, Pending);
    assert SupervisedTeams(map[0 := team], sup) == {};
  }

  /** `approve_team`, with the limit counting the teams the supervisor already supervises. */
  method ApproveTeam(db: Database, t: TeamId, sup: UserId) returns (r: Result<()>)
    requires t in db.teams
    modifies db`teams
    ensures old(db.TeamsValid()) ==> db.TeamsValid()
    ensures r.Ok? <==> old(db.teams[t].status) == Pending && |SupervisedTeams(old(db.teams), sup)| < 10
    ensures old(db.teams[t].status) != Pending ==> r == Err("Only pending teams can be approved.")
    ensures old(db.teams[t].status) == Pending && |SupervisedTeams(old(db.teams), sup)| >= 10 ==>
              r == Err("Supervisor cannot own more than 10 teams.")
    ensures r.Err? ==> db.teams == old(db.teams)
    ensures r.Ok? ==> db.teams == old(db.teams)[t := ApprovedBy(old(db.teams[t]), sup)]
  {
    var team := db.teams[t];
    if team.status != Pending {
      return Err("Only pending teams can be approved.");
    }
    if |SupervisedTeams(db.teams, sup)| >= 10 {
      return Err("Supervisor cannot own more than 10 teams.");
    }
    db.teams := db.teams[t := ApprovedBy(team, sup)];
    r := Ok(());
  }

  /** An approval the limit lets through leaves the supervisor with at most ten teams. */
  lemma ApprovalKeepsSupervisorLimit(teams: map<TeamId, Team>, t: TeamId, sup: UserId)
    requires t in teams && |SupervisedTeams(teams, sup)| < 10
    ensures |SupervisedTeams(teams[t := ApprovedBy(teams[t], sup)], sup)| <= 10
  {
    var before := SupervisedTeams(teams, sup);
    var after := SupervisedTeams(teams[t := ApprovedBy(teams[t], sup)], sup);
    assert after <= before + {t};
    SubsetCard(after, before + {t});
  }

  /** `reject_team`: from any status. */
  method RejectTeam(db: Database, t: TeamId)
    requires t in db.teams
    modifies db`teams
    ensures old(db.TeamsValid()) ==> db.TeamsValid()
    ensures db.teams == old(db.teams)[t := old(db.teams[t]).(status := Rejected)]
  {
    db.teams := db.teams[t := db.teams[t].(status := Rejected)];
  }

  // ---------------------------------------------------------------- likes

  /** `Like.objects.get_or_create` followed by `delete` when it already existed. */
  function ToggleLike(likes: set<(UserId, TeamId)>, key: (UserId, TeamId)): (r: set<(UserId, TeamId)>)
    ensures key in r <==> key !in likes
    ensures r - {key} == likes - {key}
  {
    if key in likes then likes - {key} else likes + {key}
  }

  /** Toggling twice restores the like set. */
  lemma ToggleTwiceRestores(likes: set<(UserId, TeamId)>, key: (UserId, TeamId))
    ensures ToggleLike(ToggleLike(likes, key), key) == likes
  {
  }

  // ---------------------------------------------------------------- team deletion

  function JoinRequestsWithout(jrs: map<nat, JoinRequest>, t: TeamId): map<nat, JoinRequest> {
    map r | r in jrs && jrs[r].team != t :: jrs[r]
  }

  function SupervisorRequestsWithout(srs: map<nat, SupervisorRequest>, t: TeamId): map<nat, SupervisorRequest> {
    map r | r in srs && srs[r].team != t :: srs[r]
  }

  function LikesWithout(likes: set<(UserId, TeamId)>, t: TeamId): set<(UserId, TeamId)> {
    set k | k in likes && k.1 != t
  }

  /** The tables after `team.delete()` and `thesis.delete()`: memberships go with the team
      record, and the team's join requests, supervisor requests and likes go by cascade. */
  function Deleted(s: Tables, t: TeamId): (d: Tables)
    requires t in s.teams
    ensures t !in d.teams
  {
    s.(teams := s.teams - {t}, topics := s.topics - {s.teams[t].topic},
       joinRequests := JoinRequestsWithout(s.joinRequests, t),
       supervisorRequests := SupervisorRequestsWithout(s.supervisorRequests, t),
       likes := LikesWithout(s.likes, t))
  }

  lemma DeletionKeepsTeams(teams: map<TeamId, Team>, topics: map<TopicId, Topic>, t: TeamId, nTopic: nat, nTeam: nat)
    requires t in teams && TopicsHandedOut(topics, nTopic) && TeamsWellFormed(teams, topics, nTeam)
    ensures TopicsHandedOut(topics - {teams[t].topic}, nTopic)
    ensures TeamsWellFormed(teams - {t}, topics - {teams[t].topic}, nTeam)
  {
  }

  lemma DeletionKeepsJoinRequests(jrs: map<nat, JoinRequest>, teams: map<TeamId, Team>, t: TeamId, n: nat)
    requires JoinRequestsWellFormed(jrs, teams, n)
    ensures JoinRequestsWellFormed(JoinRequestsWithout(jrs, t), teams - {t}, n)
  {
  }

  lemma DeletionKeepsSupervisorRequests(srs: map<nat, SupervisorRequest>, teams: map<TeamId, Team>, t: TeamId, n: nat)
    requires SupervisorRequestsWellFormed(srs, teams, n)
    ensures SupervisorRequestsWellFormed(SupervisorRequestsWithout(srs, t), teams - {t}, n)
  {
  }

  lemma DeletionKeepsFormation(teams: map<TeamId, Team>, jrs: map<nat, JoinRequest>, t: TeamId)
    requires Formation(teams, jrs)
    ensures Formation(teams - {t}, JoinRequestsWithout(jrs, t))
  {
    var teams', jrs' := teams - {t}, JoinRequestsWithout(jrs, t);
    forall r | r in jrs' && jrs'[r].status == RequestPending ensures !InTeam(teams', jrs'[r].student) {
      assert !InTeam(teams, jrs[r].student);
    }
  }

  /** Deleting a team keeps the tables consistent. */
  lemma DeletionKeepsConsistent(s: Tables, t: TeamId)
    requires t in s.teams && Consistent(s)
    ensures Consistent(Deleted(s, t))
  {
    DeletionKeepsTeams(s.teams, s.topics, t, s.nextTopicId, s.nextTeamId);
    DeletionKeepsJoinRequests(s.joinRequests, s.teams, t, s.nextJoinRequestId);
    DeletionKeepsSupervisorRequests(s.supervisorRequests, s.teams, t, s.nextSupervisorRequestId);
    DeletionKeepsFormation(s.teams, s.joinRequests, t);
    assert OnePendingPerTeam(SupervisorRequestsWithout(s.supervisorRequests, t));
  }

  method DeleteTeamAndTopic(db: Database, t: TeamId)
    requires t in db.teams
    modifies db`teams, db`topics, db`joinRequests, db`supervisorRequests, db`likes
    ensures db.TeamTables() == Deleted(old(db.TeamTables()), t)
  {
    var topic := db.teams[t].topic;
    db.teams := db.teams - {t};
    db.joinRequests := JoinRequestsWithout(db.joinRequests, t);
    db.supervisorRequests := SupervisorRequestsWithout(db.supervisorRequests, t);
    db.likes := LikesWithout(db.likes, t);
    db.topics := db.topics - {topic};
  }

  // ---------------------------------------------------------------- the earliest member

  /** `a` joined no later than `b`; equal join times fall back to the smaller key. */
  predicate JoinedFirst(members: map<UserId, Time>, a: UserId, b: UserId)
    requires a in members && b in members
  {
    members[a] < members[b] || (members[a] == members[b] && a <= b)
  }

  predicate IsEarliest(members: map<UserId, Time>, m: UserId) {
    m in members && forall o :: o in members ==> JoinedFirst(members, m, o)
  }

  lemma {:induction false} EarliestExists(members: map<UserId, Time>)
    requires members != map[]
    ensures exists m :: IsEarliest(members, m)
    decreases |members|
  {
    var x :| x in members;
    var rest := members - {x};
    if rest == map[] {
      forall o | o in members ensures JoinedFirst(members, x, o) {
        assert o !in rest;
      }
      assert IsEarliest(members, x);
    } else {
      EarliestExists(rest);
      var m :| IsEarliest(rest, m);
      if JoinedFirst(members, m, x) {
        forall o | o in members ensures JoinedFirst(members, m, o) {
          if o != x {
            assert JoinedFirst(rest, m, o);
          }
        }
        assert IsEarliest(members, m);
      } else {
        forall o | o in members ensures JoinedFirst(members, x, o) {
          if o != x {
            assert JoinedFirst(rest, m, o);
          }
        }
        assert IsEarliest(members, x);
      }
    }
  }

  /** `Membership.objects.filter(team=team).order_by('joined_at').first()`. */
  function Earliest(members: map<UserId, Time>): (r: Option<UserId>)
    ensures r.None? <==> members == map[]
    ensures r.Some? ==> IsEarliest(members, r.value)
  {
    if members == map[] then None
    else
      EarliestExists(members);
      var m :| IsEarliest(members, m);
      Some(m)
  }
}

/** Creating a thesis topic (topics/serializers.py): the creation guards of
    `ThesisTopicSerializer.validate`, and `create`, which records the topic's author and
    sets up the topic's team around its creator. */
module Topics {
  import opened Common
  import opened Schema
  import opened TeamModels
  import opened TeamViews

  const OneTopicPerStudent := "Students can create only one thesis topic."
  const InTeamCannotCreate := "You are already part of a team and cannot create a new one."
  const PendingCannotCreate := "You have a pending join request and cannot create a new team."
  const SupervisorLimit := "Supervisor limit exceeded. Max 10 projects/teams allowed."
  const OnlyStudentsAndSupervisors := "Only students and supervisors can create projects."

  /** `ThesisTopic.objects.filter(created_by_student=student)` */
  function StudentTopics(topics: map<TopicId, Topic>, sid: UserId): set<TopicId> {
    set k | k in topics && topics[k].createdByStudent == Some(sid)
  }

  /** `ThesisTopic.objects.filter(created_by_supervisor=supervisor)` */
  function SupervisorTopics(topics: map<TopicId, Topic>, sup: UserId): set<TopicId> {
    set k | k in topics && topics[k].createdBySupervisor == Some(sup)
  }

  /** The number the supervisor limit is checked against: topics created plus teams supervised. */
  function SupervisorLoad(s: Tables, sup: UserId): nat {
    |SupervisorTopics(s.topics, sup)| + |SupervisedTeams(s.teams, sup)|
  }

  /** `created_by_student` is a OneToOneField: no student authors two topics. */
  ghost predicate UniqueStudentAuthors(topics: map<TopicId, Topic>) {
    forall a, b :: (a in topics && b in topics && topics[a].createdByStudent.Some? &&
                    topics[a].createdByStudent == topics[b].createdByStudent) ==> a == b
  }

  /** `validate`: the error it raises, if any. An update of an existing topic is not checked. */
  function ValidateTopic(s: Tables, students: map<UserId, StudentProfile>, supervisors: map<UserId, SupervisorProfile>,
                         uid: UserId, updating: bool): Option<string>
  {
    if updating then None
    else if uid in students then
      if StudentTopics(s.topics, uid) != {} then Some(OneTopicPerStudent)
      else if InTeam(s.teams, uid) then Some(InTeamCannotCreate)
      else if HasPendingJoin(s.joinRequests, uid) then Some(PendingCannotCreate)
      else None
    else if uid in supervisors then
      if SupervisorLoad(s, uid) >= 10 then Some(SupervisorLimit) else None
    else Some(OnlyStudentsAndSupervisors)
  }

  /** A new topic passes the guards exactly when its creator is a student with no topic, no
      team and no pending join request, or a supervisor whose load is under ten. */
  lemma ValidateTopicAdmits(s: Tables, students: map<UserId, StudentProfile>, supervisors: map<UserId, SupervisorProfile>,
                            uid: UserId, updating: bool)
    ensures updating ==> ValidateTopic(s, students, supervisors, uid, updating).None?
    ensures !updating ==>
              (ValidateTopic(s, students, supervisors, uid, updating).None? <==>
                 || (uid in students && StudentTopics(s.topics, uid) == {} && !InTeam(s.teams, uid)
                     && !HasPendingJoin(s.joinRequests, uid))
                 || (uid !in students && uid in supervisors && SupervisorLoad(s, uid) < 10))
  {
  }

  /** The topic and its team as `create` writes them: the author is the student profile when
      there is one and the supervisor profile otherwise; a student creator joins the team, and
      a supervisor creator supervises it. */
  function Created(s: Tables, students: map<UserId, StudentProfile>, supervisors: map<UserId, SupervisorProfile>,
                   uid: UserId, title: string, skills: set<SkillId>, now: Time): Tables
  {
    var k := s.nextTopicId;
    var topic := Topic(title, skills,
                       if uid in students then Some(uid) else None,
                       if uid !in students && uid in supervisors then Some(uid) else None);
    var team := Team(k, uid,
                     if uid in students then map[uid := now] else map[],
                     if uid in supervisors then Some(uid) else None,
                     Open);
    s.(topics := s.topics[k := topic], teams := s.teams[s.nextTeamId := team],
       nextTopicId := k + 1, nextTeamId := s.nextTeamId + 1)
  }

  /** POST topics/create/ by `uid`: 400 with the guard's message, or 201 with the new topic. */
  function CreateTopicOutcome(s: Tables, students: map<UserId, StudentProfile>, supervisors: map<UserId, SupervisorProfile>,
                              uid: UserId, title: string, skills: set<SkillId>, now: Time): Outcome
  {
    match ValidateTopic(s, students, supervisors, uid, false)
    case Some(e) => Refuse(s, 400, e)
    case None => Outcome(Created(s, students, supervisors, uid, title, skills, now), [], Response(201, title))
  }

  method CreateTopic(db: Database, uid: UserId, title: string, skills: set<SkillId>, now: Time) returns (r: Response)
    modifies db`topics, db`teams, db`nextTopicId, db`nextTeamId
    ensures var o := CreateTopicOutcome(old(db.TeamTables()), db.students, db.supervisors, uid, title, skills, now);
            db.TeamTables() == o.tables && r == o.response
  {
    ghost var s0 := db.TeamTables();
    var err := ValidateTopic(db.TeamTables(), db.students, db.supervisors, uid, false);
    if err.Some? {
      return Response(400, err.value);
    }
    var k := db.nextTopicId;
    db.topics := db.topics[k := Topic(title, skills,
                                      if uid in db.students then Some(uid) else None,
                                      if uid !in db.students && uid in db.supervisors then Some(uid) else None)];
    db.nextTopicId := k + 1;
    var team := Team(k, uid, map[], None, Open);
    if uid in db.students {
      team := team.(members := map[uid := now]);
    }
    if uid in db.supervisors {
      team := team.(supervisor := Some(uid));
    }
    db.teams := db.teams[db.nextTeamId := team];
    db.nextTeamId := db.nextTeamId + 1;
    assert db.TeamTables() == Created(s0, db.students, db.supervisors, uid, title, skills, now);
    r := Response(201, title);
  }

  /** A creation that passes makes exactly one new team, on the new topic, owned by the
      creator and open; a student creator is its only member, a supervisor creator its
      supervisor, and the topic records its author. */
  lemma CreationSetsUpTeam(s: Tables, students: map<UserId, StudentProfile>, supervisors: map<UserId, SupervisorProfile>,
                           uid: UserId, title: string, skills: set<SkillId>, now: Time)
    requires TablesValid(s)
    ensures var o := CreateTopicOutcome(s, students, supervisors, uid, title, skills, now);
            && (o.response.status == 201 <==> ValidateTopic(s, students, supervisors, uid, false).None?)
            && (o.response.status != 201 ==> o.tables == s)
            && (o.response.status == 201 ==>
                  var k := s.nextTopicId;
                  var t := s.nextTeamId;
                  && k !in s.topics && t !in s.teams
                  && o.tables.topics == s.topics[k := o.tables.topics[k]]
                  && o.tables.teams == s.teams[t := o.tables.teams[t]]
                  && o.tables.teams[t].topic == k && o.tables.teams[t].owner == uid
                  && o.tables.teams[t].status == Open
                  && (uid in students ==> o.tables.teams[t].members.Keys == {uid}
                                          && o.tables.topics[k].createdByStudent == Some(uid))
                  && (uid !in students ==> o.tables.teams[t].members == map[]
                                           && o.tables.teams[t].supervisor == Some(uid)
                                           && o.tables.topics[k].createdBySupervisor == Some(uid))
                  && (o.tables.teams[t].supervisor == Some(uid) <==> uid in supervisors))
  {
  }

  lemma CreationKeepsTeams(s: Tables, students: map<UserId, StudentProfile>, supervisors: map<UserId, SupervisorProfile>,
                           uid: UserId, title: string, skills: set<SkillId>, now: Time)
    requires TablesValid(s)
    ensures TablesValid(Created(s, students, supervisors, uid, title, skills, now))
  {
    var c := Created(s, students, supervisors, uid, title, skills, now);
    var k, t := s.nextTopicId, s.nextTeamId;
    forall a, b | a in c.teams && b in c.teams && c.teams[a].topic == c.teams[b].topic ensures a == b {
      if a != t && b != t {
        assert s.teams[a].topic == s.teams[b].topic;
      }
    }
  }

  lemma CreationKeepsFormation(s: Tables, students: map<UserId, StudentProfile>, supervisors: map<UserId, SupervisorProfile>,
                               uid: UserId, title: string, skills: set<SkillId>, now: Time)
    requires Formation(s.teams, s.joinRequests) && s.nextTeamId !in s.teams
    requires uid in students ==> !InTeam(s.teams, uid) && !HasPendingJoin(s.joinRequests, uid)
    ensures Formation(Created(s, students, supervisors, uid, title, skills, now).teams, s.joinRequests)
  {
    var teams := Created(s, students, supervisors, uid, title, skills, now).teams;
    var t := s.nextTeamId;
    forall r | r in s.joinRequests && s.joinRequests[r].status == RequestPending
      ensures !InTeam(teams, s.joinRequests[r].student)
    {
      var x := s.joinRequests[r].student;
      assert !InTeam(s.teams, x);
      forall u | u in teams ensures x !in teams[u].members {
        if u != t {
          assert x !in s.teams[u].members;
        }
      }
    }
    forall a, b, x | a in teams && b in teams && x in teams[a].members && x in teams[b].members ensures a == b {
      if a != t && b != t {
        assert x in s.teams[a].members && x in s.teams[b].members;
      }
    }
  }

  /** Creating a topic keeps the tables consistent. */
  lemma CreationKeepsConsistent(s: Tables, students: map<UserId, StudentProfile>, supervisors: map<UserId, SupervisorProfile>,
                                uid: UserId, title: string, skills: set<SkillId>, now: Time)
    requires Consistent(s)
    ensures Consistent(CreateTopicOutcome(s, students, supervisors, uid, title, skills, now).tables)
  {
    if ValidateTopic(s, students, supervisors, uid, false).None? {
      CreationKeepsTeams(s, students, supervisors, uid, title, skills, now);
      CreationKeepsFormation(s, students, supervisors, uid, title, skills, now);
    }
  }

  /** The student guard keeps `created_by_student` one-to-one. */
  lemma CreationKeepsAuthorsUnique(s: Tables, students: map<UserId, StudentProfile>, supervisors: map<UserId, SupervisorProfile>,
                                   uid: UserId, title: string, skills: set<SkillId>, now: Time)
    requires UniqueStudentAuthors(s.topics) && TopicsHandedOut(s.topics, s.nextTopicId)
    ensures UniqueStudentAuthors(CreateTopicOutcome(s, students, supervisors, uid, title, skills, now).tables.topics)
  {
    var o := CreateTopicOutcome(s, students, supervisors, uid, title, skills, now);
    if o.response.status == 201 {
      var topics := o.tables.topics;
      var k := s.nextTopicId;
      if uid in students {
        forall j | j in s.topics ensures s.topics[j].createdByStudent != Some(uid) {
          assert j !in StudentTopics(s.topics, uid);
        }
      }
      forall a, b | (a in topics && b in topics && topics[a].createdByStudent.Some? &&
                     topics[a].createdByStudent == topics[b].createdByStudent)
        ensures a == b
      {
        if a != k && b != k {
          assert s.topics[a] == topics[a] && s.topics[b] == topics[b];
        }
      }
    }
  }

  lemma NewSupervisorTopic(topics: map<TopicId, Topic>, k: TopicId, topic: Topic, sup: UserId)
    requires k !in topics && topic.createdBySupervisor == Some(sup)
    ensures |SupervisorTopics(topics[k := topic], sup)| == |SupervisorTopics(topics, sup)| + 1
  {
    assert SupervisorTopics(topics[k := topic], sup) == SupervisorTopics(topics, sup) + {k};
  }

  lemma NewSupervisedTeam(teams: map<TeamId, Team>, t: TeamId, team: Team, sup: UserId)
    requires t !in teams && team.supervisor == Some(sup)
    ensures |SupervisedTeams(teams[t := team], sup)| == |SupervisedTeams(teams, sup)| + 1
  {
    assert SupervisedTeams(teams[t := team], sup) == SupervisedTeams(teams, sup) + {t};
  }

  /** A supervisor's own topic counts twice against the limit, as a created topic and as a
      supervised team: the check lets a load of nine through, and the creation leaves eleven. */
  lemma SupervisorCreationAddsTwo(s: Tables, students: map<UserId, StudentProfile>, supervisors: map<UserId, SupervisorProfile>,
                                  uid: UserId, title: string, skills: set<SkillId>, now: Time)
    requires TablesValid(s) && uid !in students && uid in supervisors
    ensures var o := CreateTopicOutcome(s, students, supervisors, uid, title, skills, now);
            && (o.response.status == 201 <==> SupervisorLoad(s, uid) < 10)
            && (o.response.status == 201 ==> SupervisorLoad(o.tables, uid) == SupervisorLoad(s, uid) + 2 <= 11)
  {
    if SupervisorLoad(s, uid) < 10 {
      var c := Created(s, students, supervisors, uid, title, skills, now);
      var k, t := s.nextTopicId, s.nextTeamId;
      NewSupervisorTopic(s.topics, k, c.topics[k], uid);
      NewSupervisedTeam(s.teams, t, c.teams[t], uid);
      assert c.topics == s.topics[k := c.topics[k]] && c.teams == s.teams[t := c.teams[t]];
    }
  }
}

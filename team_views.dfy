/** The team-formation endpoints of teams/views.py. Each view is specified by a function
    from the team tables (and the read-only profile tables, the caller and the request's
    arguments) to an `Outcome`: the new tables, the notifications sent in order, and the
    HTTP response. The method for the view performs the same steps on the database and
    the channel layer, and separate lemmas show that every view keeps the tables
    `Consistent` and state what each view promises. */
module TeamViews {
  import opened Common
  import opened Schema
  import opened ChannelLayer
  import opened Notify
  import opened TeamModels

  datatype Outcome = Outcome(tables: Tables, notes: seq<Note>, response: Response)

  /** A refusal: nothing written, nothing sent. */
  function Refuse(s: Tables, status: int, body: string): Outcome {
    Outcome(s, [], Response(status, body))
  }

  /** A unique_together violation on INSERT, which no view catches. */
  const DuplicatePair := "IntegrityError: duplicate key value violates unique constraint"
  /** `Model.objects.get(...)` matching more than one row, which no view catches. */
  const MultipleObjectsReturned := "MultipleObjectsReturned: get() returned more than one row"

  // The messages of the views, each defined once.
  const OnlyStudentsJoin := "Only students can join teams."
  const AlreadyInTeam := "You are already in a team."
  const AlreadyApplied := "You have already applied to a team."
  const AlreadySentHere := "You already sent a join request to this team."
  const JoinRequestSent := "Join request sent."
  const WantsToJoin := " wants to join your team."
  const OnlyStudentsCancel := "Only students can cancel."
  const RequestNotFound := "Request not found."
  const OnlyPendingCancel := "Only pending requests can be canceled."
  const RequestCanceled := "Request canceled."
  const OnlyOwnerAccepts := "Only the owner can accept requests."
  const TeamFull := "Team is already full."
  const StudentAdded := "Student added to the team."
  const OnlyOwnerRejects := "Only the owner can reject requests."
  const RequestRejectedMsg := "Request rejected."
  const WasRejected := "' was rejected."
  const WasAccepted := "' was accepted."
  const WasAutoRejected := "' was automatically rejected because the team is now full."
  const YourRequestToJoin := "Your request to join '"
  const OnlyStudentsRequest := "Only students can send supervisor requests."
  const OnlyOwnersRequest := "Only team owners can send requests."
  const AlreadyPending := "You already have a pending request."
  const HasSupervisor := "Team already has supervisor."
  const RequestSent := "Request sent."
  const RequestsYou := " requests you as supervisor."
  const OnlySupervisorsAccept := "Only supervisors can accept."
  const TeamAssigned := "Team approved and assigned."
  const SupervisionAccepted := "Your supervisor request was accepted!"
  const OnlySupervisorsReject := "Only supervisors can reject."
  const SupervisionRejected := "Your supervisor request was rejected."
  const NoPendingRequest := "No pending request."
  const TeamNotFoundLike := "Team not found"
  const Unliked := "Unliked"
  const Liked := "Liked"
  const OnlyStudentsLeave := "Only students can leave teams."
  const NotInATeam := "You are not in a team."
  const HasLeft := " has left your team."
  const LastMemberLeft := "You were the last member. Team and project deleted."
  const NowOwner := "You are now the new owner of the team."
  const LeftTeam := "You left the team successfully."
  const OnlySupervisorsDelete := "Only supervisors can delete."
  const TeamNotFound := "Team not found."
  const NotTheSupervisor := "You are not the supervisor of this team."
  const TeamHasMembers := "You cannot delete the team while it has members."
  const TeamDeleted := "Team and project deleted."
  const OnlyOwnerOrSupervisorRemoves := "Only the owner or supervisor can remove members."
  const CannotRemoveSelf := "You cannot remove yourself."
  const StudentNotFound := "Student not found."
  const NotInThisTeam := "Student is not in the team."
  const RemovedFrom := "You were removed from the team '"
  const ClosingQuote := "'."
  const StudentRemoved := "Student removed from the team."

  // ---------------------------------------------------------------- shared queries

  /** `team.thesis_topic.title`; the empty string for a team or topic that is not there. */
  function TitleOf(s: Tables, t: TeamId): string {
    if t in s.teams && s.teams[t].topic in s.topics then s.topics[s.teams[t].topic].title else ""
  }

  /** f"{first_name} {last_name}" of a student profile. */
  function FullName(p: StudentProfile): string {
    Text(p.firstName) + " " + Text(p.lastName)
  }

  /** `team.members.add(student)`: a member already there keeps its joined_at. */
  function Added(members: map<UserId, Time>, sid: UserId, now: Time): map<UserId, Time> {
    if sid in members then members else members[sid := now]
  }

  /** `JoinRequest.objects.filter(team=team, student=student, status="pending").exists()` */
  predicate PendingTo(jrs: map<nat, JoinRequest>, sid: UserId, t: TeamId) {
    exists r :: r in jrs && jrs[r].student == sid && jrs[r].team == t && jrs[r].status == RequestPending
  }

  /** A row for the pair (student, team) exists, whatever its status. */
  predicate JoinPairTaken(jrs: map<nat, JoinRequest>, sid: UserId, t: TeamId) {
    exists r :: r in jrs && jrs[r].student == sid && jrs[r].team == t
  }

  /** The rows `JoinRequest.objects.get(team=team, student_id=sid, status='pending')` matches. */
  function PendingFor(jrs: map<nat, JoinRequest>, t: TeamId, sid: UserId): set<nat> {
    set r | r in jrs && jrs[r].team == t && jrs[r].student == sid && jrs[r].status == RequestPending
  }

  /** `JoinRequest.objects.filter(team=team, status="pending").exclude(student=sid)` */
  function OthersPending(jrs: map<nat, JoinRequest>, t: TeamId, sid: UserId): set<nat> {
    set r | r in jrs && jrs[r].team == t && jrs[r].status == RequestPending && jrs[r].student != sid
  }

  // ---------------------------------------------------------------- JoinTeamView

  /** POST teams/<pk>/join/ by `uid`. */
  function JoinTeamOutcome(s: Tables, students: map<UserId, StudentProfile>, uid: UserId, t: TeamId, now: Time): Outcome

  {
    if uid !in students then Refuse(s, 403, OnlyStudentsJoin)
    else if InTeam(s.teams, uid) then Refuse(s, 400, AlreadyInTeam)
    else if HasPendingJoin(s.joinRequests, uid) then Refuse(s, 400, AlreadyApplied)
    else if t !in s.teams then Refuse(s, 404, NotFound)
    else if PendingTo(s.joinRequests, uid, t) then Refuse(s, 400, AlreadySentHere)
    else if JoinPairTaken(s.joinRequests, uid, t) then Refuse(s, 500, DuplicatePair)
    else
      var id := s.nextJoinRequestId;
      Outcome(s.(joinRequests := s.joinRequests[id := JoinRequest(uid, t, RequestPending, now)],
                 nextJoinRequestId := id + 1),
              [Note(s.teams[t].owner, FullName(students[uid]) + WantsToJoin)],
              Response(200, JoinRequestSent))
  }

  lemma JoinTeamGuards(s: Tables, students: map<UserId, StudentProfile>, uid: UserId, t: TeamId, now: Time)
    ensures var o := JoinTeamOutcome(s, students, uid, t, now);
            o.response.status == 200 <==>
              uid in students && !InTeam(s.teams, uid) && !HasPendingJoin(s.joinRequests, uid) &&
              t in s.teams && !JoinPairTaken(s.joinRequests, uid, t)
    ensures var o := JoinTeamOutcome(s, students, uid, t, now);
            o.response.status != 200 ==> o.tables == s && o.notes == []
  {
  }

  method JoinTeam(db: Database, layer: ChannelLayer, uid: UserId, t: TeamId, now: Time) returns (r: Response)
    requires db.NotificationsValid()
    modifies db`joinRequests, db`nextJoinRequestId, db`notifications, db`nextNotificationId, layer`queues
    ensures db.NotificationsValid()
    ensures var o := JoinTeamOutcome(old(db.TeamTables()), db.students, uid, t, now);
            && db.TeamTables() == o.tables && r == o.response
            && Delivered(db, layer, old(db.notifications), old(db.nextNotificationId), old(layer.queues), o.notes)
  {
    if uid !in db.students {
      return Response(403, OnlyStudentsJoin);
    }
    if InTeam(db.teams, uid) {
      return Response(400, AlreadyInTeam);
    }
    if HasPendingJoin(db.joinRequests, uid) {
      return Response(400, AlreadyApplied);
    }
    if t !in db.teams {
      return Response(404, NotFound);
    }
    if PendingTo(db.joinRequests, uid, t) {
      return Response(400, AlreadySentHere);
    }
    if JoinPairTaken(db.joinRequests, uid, t) {
      return Response(500, DuplicatePair);
    }
    var id := db.nextJoinRequestId;
    db.joinRequests := db.joinRequests[id := JoinRequest(uid, t, RequestPending, now)];
    db.nextJoinRequestId := id + 1;
    Send(db, layer, Note(db.teams[t].owner, FullName(db.students[uid]) + WantsToJoin));
    r := Response(200, JoinRequestSent);
  }

  /** A successful join request is the student's only pending request, and goes to the owner. */
  lemma JoinLeavesOnePendingRequest(s: Tables, students: map<UserId, StudentProfile>, uid: UserId, t: TeamId, now: Time)
    requires JoinRequestsWellFormed(s.joinRequests, s.teams, s.nextJoinRequestId)
    ensures var o := JoinTeamOutcome(s, students, uid, t, now);
            o.response.status == 200 ==>
              && PendingFor(o.tables.joinRequests, t, uid) == {s.nextJoinRequestId}
              && (forall r ::
                    (r in o.tables.joinRequests && o.tables.joinRequests[r].student == uid &&
                     o.tables.joinRequests[r].status == RequestPending) ==> r == s.nextJoinRequestId)
              && o.notes == [Note(s.teams[t].owner, FullName(students[uid]) + WantsToJoin)]
  {
    var o := JoinTeamOutcome(s, students, uid, t, now);
    JoinTeamGuards(s, students, uid, t, now);
    if o.response.status == 200 {
      var n := s.nextJoinRequestId;
      var jrs := o.tables.joinRequests;
      assert n !in s.joinRequests;
      assert jrs == s.joinRequests[n := JoinRequest(uid, t, RequestPending, now)];
    }
  }

  lemma InsertKeepsJoinRequests(jrs: map<nat, JoinRequest>, teams: map<TeamId, Team>, n: nat, sid: UserId, t: TeamId, now: Time)
    requires JoinRequestsWellFormed(jrs, teams, n) && t in teams && !JoinPairTaken(jrs, sid, t)
    ensures JoinRequestsWellFormed(jrs[n := JoinRequest(sid, t, RequestPending, now)], teams, n + 1)
  {
    var jrs' := jrs[n := JoinRequest(sid, t, RequestPending, now)];
    forall a, b | a in jrs' && b in jrs' && jrs'[a].student == jrs'[b].student && jrs'[a].team == jrs'[b].team
      ensures a == b
    {
      if a != n && b != n {
        assert jrs[a] == jrs'[a] && jrs[b] == jrs'[b];
      }
    }
  }

  lemma InsertKeepsFormation(teams: map<TeamId, Team>, jrs: map<nat, JoinRequest>, n: nat, sid: UserId, t: TeamId, now: Time)
    requires Formation(teams, jrs) && n !in jrs && !InTeam(teams, sid) && !HasPendingJoin(jrs, sid)
    ensures Formation(teams, jrs[n := JoinRequest(sid, t, RequestPending, now)])
  {
    var jrs' := jrs[n := JoinRequest(sid, t, RequestPending, now)];
    forall r | r in jrs' && jrs'[r].status == RequestPending ensures !InTeam(teams, jrs'[r].student) {
      if r != n {
        assert jrs[r] == jrs'[r];
      }
    }
    forall a, b | (a in jrs' && b in jrs' && jrs'[a].student == jrs'[b].student &&
                   jrs'[a].status == RequestPending && jrs'[b].status == RequestPending)
      ensures a == b
    {
      if a != n {
        assert jrs[a] == jrs'[a];
      }
      if b != n {
        assert jrs[b] == jrs'[b];
      }
    }
  }

  lemma JoinKeepsConsistent(s: Tables, students: map<UserId, StudentProfile>, uid: UserId, t: TeamId, now: Time)
    requires Consistent(s)
    ensures Consistent(JoinTeamOutcome(s, students, uid, t, now).tables)
  {
    var o := JoinTeamOutcome(s, students, uid, t, now);
    JoinTeamGuards(s, students, uid, t, now);
    if o.response.status == 200 {
      var n := s.nextJoinRequestId;
      assert n !in s.joinRequests;
      InsertKeepsJoinRequests(s.joinRequests, s.teams, n, uid, t, now);
      InsertKeepsFormation(s.teams, s.joinRequests, n, uid, t, now);
    }
  }

  // ---------------------------------------------------------------- MyJoinRequestsView.delete

  /** DELETE of the caller's join request `pk`. */
  function CancelJoinOutcome(s: Tables, students: map<UserId, StudentProfile>, uid: UserId, pk: nat): Outcome

  {
    if uid !in students then Refuse(s, 403, OnlyStudentsCancel)
    else if pk !in s.joinRequests || s.joinRequests[pk].student != uid then Refuse(s, 404, RequestNotFound)
    else if s.joinRequests[pk].status != RequestPending then Refuse(s, 400, OnlyPendingCancel)
    else Outcome(s.(joinRequests := s.joinRequests - {pk}), [], Response(200, RequestCanceled))
  }

  lemma CancelJoinGuards(s: Tables, students: map<UserId, StudentProfile>, uid: UserId, pk: nat)
    ensures var o := CancelJoinOutcome(s, students, uid, pk);
            o.notes == []
    ensures var o := CancelJoinOutcome(s, students, uid, pk);
            o.response.status == 200 <==>
              uid in students && pk in s.joinRequests && s.joinRequests[pk].student == uid &&
              s.joinRequests[pk].status == RequestPending
    ensures var o := CancelJoinOutcome(s, students, uid, pk);
            o.response.status != 200 ==> o.tables == s
  {
  }

  method CancelJoinRequest(db: Database, uid: UserId, pk: nat) returns (r: Response)
    modifies db`joinRequests
    ensures var o := CancelJoinOutcome(old(db.TeamTables()), db.students, uid, pk);
            db.TeamTables() == o.tables && r == o.response
  {
    if uid !in db.students {
      return Response(403, OnlyStudentsCancel);
    }
    if pk !in db.joinRequests || db.joinRequests[pk].student != uid {
      return Response(404, RequestNotFound);
    }
    if db.joinRequests[pk].status != RequestPending {
      return Response(400, OnlyPendingCancel);
    }
    db.joinRequests := db.joinRequests - {pk};
    r := Response(200, RequestCanceled);
  }

  lemma CancelKeepsConsistent(s: Tables, students: map<UserId, StudentProfile>, uid: UserId, pk: nat)
    requires Consistent(s)
    ensures Consistent(CancelJoinOutcome(s, students, uid, pk).tables)
  {
    var o := CancelJoinOutcome(s, students, uid, pk);
    if o.response.status == 200 {
      DroppingKeepsJoinRequests(s.joinRequests, s.teams, s.nextJoinRequestId, {pk});
      DroppingKeepsFormation(s.teams, s.joinRequests, {pk});
    }
  }

  /** Cancelling frees the student to apply again. */
  lemma CancelFreesStudent(s: Tables, students: map<UserId, StudentProfile>, uid: UserId, pk: nat)
    requires OnePendingPerStudent(s.joinRequests)
    ensures var o := CancelJoinOutcome(s, students, uid, pk);
            o.response.status == 200 ==> !HasPendingJoin(o.tables.joinRequests, uid)
  {
    var o := CancelJoinOutcome(s, students, uid, pk);
    if o.response.status == 200 {
      var jrs := o.tables.joinRequests;
      forall r | r in jrs && jrs[r].student == uid ensures jrs[r].status != RequestPending {
        assert s.joinRequests[r] == jrs[r];
      }
    }
  }

  // ---------------------------------------------------------------- AcceptJoinRequestView

  const AcceptMissing := "Team or join request not found."

  function AcceptedNote(sid: UserId, title: string): Note {
    Note(sid, YourRequestToJoin + title + WasAccepted)
  }

  function AutoRejectedNote(sid: UserId, title: string): Note {
    Note(sid, YourRequestToJoin + title + WasAutoRejected)
  }

  /** One notice per request in `ids`, to that request's student, in the order of `ids`. */
  function AutoRejections(jrs: map<nat, JoinRequest>, ids: seq<nat>, title: string): (ns: seq<Note>)
    requires forall i :: 0 <= i < |ids| ==> ids[i] in jrs
    ensures |ns| == |ids|
    ensures forall i :: 0 <= i < |ids| ==> ns[i] == AutoRejectedNote(jrs[ids[i]].student, title)
  {
    seq(|ids|, i requires 0 <= i < |ids| => AutoRejectedNote(jrs[ids[i]].student, title))
  }

  /** The request `rid` accepted and its student added to team `t`. */
  function Admitted(s: Tables, t: TeamId, sid: UserId, rid: nat, now: Time): (a: Tables)
    requires t in s.teams && rid in s.joinRequests
  {
    s.(teams := s.teams[t := s.teams[t].(members := Added(s.teams[t].members, sid, now))],
       joinRequests := s.joinRequests[rid := s.joinRequests[rid].(status := RequestAccepted)])
  }

  /** A team that has become full drops every other pending request to it. */
  function AdmitTables(s: Tables, t: TeamId, sid: UserId, rid: nat, now: Time): Tables
    requires t in s.teams && rid in s.joinRequests
  {
    var a := Admitted(s, t, sid, rid, now);
    if |a.teams[t].members| >= 4 then a.(joinRequests := a.joinRequests - OthersPending(a.joinRequests, t, sid))
    else a
  }

  /** The accepted student is told first; once the team is full each dropped request's
      student is told in turn. */
  function AdmitNotes(s: Tables, t: TeamId, sid: UserId, rid: nat, now: Time): seq<Note>
    requires t in s.teams && rid in s.joinRequests
  {
    var a := Admitted(s, t, sid, rid, now);
    var title := TitleOf(s, t);
    if |a.teams[t].members| >= 4 then
      [AcceptedNote(sid, title)] + AutoRejections(a.joinRequests, Ascending(OthersPending(a.joinRequests, t, sid)), title)
    else [AcceptedNote(sid, title)]
  }

  /** The success path: admit, notify, and once the team is full drop and announce every
      other pending request to it. */
  function Admit(s: Tables, t: TeamId, sid: UserId, rid: nat, now: Time): (o: Outcome)
    requires t in s.teams && rid in s.joinRequests
  {
    Outcome(AdmitTables(s, t, sid, rid, now), AdmitNotes(s, t, sid, rid, now), Response(200, StudentAdded))
  }

  /** POST teams/<pk>/accept/<sid>/ by `uid`. */
  function AcceptJoinOutcome(s: Tables, uid: UserId, t: TeamId, sid: UserId, now: Time): Outcome

  {
    if t !in s.teams then Refuse(s, 404, AcceptMissing)
    else if s.teams[t].owner != uid then Refuse(s, 403, OnlyOwnerAccepts)
    else if |s.teams[t].members| >= 4 then Refuse(s, 400, TeamFull)
    else
      var found := PendingFor(s.joinRequests, t, sid);
      if found == {} then Refuse(s, 404, AcceptMissing)
      else if |found| > 1 then Refuse(s, 500, MultipleObjectsReturned)
      else Admit(s, t, sid, MinOf(found), now)
  }

  lemma AcceptJoinGuards(s: Tables, uid: UserId, t: TeamId, sid: UserId, now: Time)
    ensures var o := AcceptJoinOutcome(s, uid, t, sid, now);
            o.response.status == 200 <==>
              t in s.teams && s.teams[t].owner == uid && |s.teams[t].members| < 4 &&
              |PendingFor(s.joinRequests, t, sid)| == 1
    ensures var o := AcceptJoinOutcome(s, uid, t, sid, now);
            o.response.status != 200 ==> o.tables == s && o.notes == []
  {
  }

  method AcceptJoinRequest(db: Database, layer: ChannelLayer, uid: UserId, t: TeamId, sid: UserId, now: Time)
    returns (r: Response)
    requires db.NotificationsValid()
    modifies db`teams, db`joinRequests, db`notifications, db`nextNotificationId, layer`queues
    ensures db.NotificationsValid()
    ensures var o := AcceptJoinOutcome(old(db.TeamTables()), uid, t, sid, now);
            && db.TeamTables() == o.tables && r == o.response
            && Delivered(db, layer, old(db.notifications), old(db.nextNotificationId), old(layer.queues), o.notes)
  {
    if t !in db.teams {
      return Response(404, AcceptMissing);
    }
    var team := db.teams[t];
    if team.owner != uid {
      return Response(403, OnlyOwnerAccepts);
    }
    if |team.members| >= 4 {
      return Response(400, TeamFull);
    }
    var found := PendingFor(db.joinRequests, t, sid);
    if found == {} {
      return Response(404, AcceptMissing);
    }
    if |found| > 1 {
      return Response(500, MultipleObjectsReturned);
    }
    var rid := MinOf(found);
    AdmitAndNotify(db, layer, t, sid, rid, now);
    r := Response(200, StudentAdded);
  }

  /** Everything AcceptJoinRequestView does once the request is found. */
  method AdmitAndNotify(db: Database, layer: ChannelLayer, t: TeamId, sid: UserId, rid: nat, now: Time)
    requires t in db.teams && rid in db.joinRequests
    requires db.NotificationsValid()
    modifies db`teams, db`joinRequests, db`notifications, db`nextNotificationId, layer`queues
    ensures db.NotificationsValid()
    ensures db.TeamTables() == AdmitTables(old(db.TeamTables()), t, sid, rid, now)
    ensures Delivered(db, layer, old(db.notifications), old(db.nextNotificationId), old(layer.queues),
                      AdmitNotes(old(db.TeamTables()), t, sid, rid, now))
  {
    ghost var s0 := db.TeamTables();
    ghost var a := Admitted(s0, t, sid, rid, now);
    var title := TitleOf(db.TeamTables(), t);
    var team := db.teams[t];
    db.teams := db.teams[t := team.(members := Added(team.members, sid, now))];
    db.joinRequests := db.joinRequests[rid := db.joinRequests[rid].(status := RequestAccepted)];
    assert db.TeamTables() == a;
    var full := |db.teams[t].members| >= 4;
    var others := OthersPending(db.joinRequests, t, sid);
    var notes := [AcceptedNote(sid, title)];
    if full {
      notes := notes + AutoRejections(db.joinRequests, Ascending(others), title);
    }
    assert notes == AdmitNotes(s0, t, sid, rid, now);
    SendEach(db, layer, notes);
    ghost var n1, k1, q1 := db.notifications, db.nextNotificationId, layer.queues;
    if full {
      db.joinRequests := db.joinRequests - others;
    }
    assert db.notifications == n1 && db.nextNotificationId == k1 && layer.queues == q1;
    assert db.TeamTables() == AdmitTables(s0, t, sid, rid, now);
    assert old(db.TeamTables()) == s0;
  }

  /** A status change keeps the request table well formed. */
  lemma MarkKeepsJoinRequests(jrs: map<nat, JoinRequest>, teams: map<TeamId, Team>, n: nat, rid: nat, st: RequestStatus)
    requires JoinRequestsWellFormed(jrs, teams, n) && rid in jrs
    ensures JoinRequestsWellFormed(jrs[rid := jrs[rid].(status := st)], teams, n)
  {
    var jrs' := jrs[rid := jrs[rid].(status := st)];
    forall a, b | a in jrs' && b in jrs' && jrs'[a].student == jrs'[b].student && jrs'[a].team == jrs'[b].team
      ensures a == b
    {
      assert jrs[a].student == jrs[b].student && jrs[a].team == jrs[b].team;
    }
  }

  lemma DroppingKeepsJoinRequests(jrs: map<nat, JoinRequest>, teams: map<TeamId, Team>, n: nat, ids: set<nat>)
    requires JoinRequestsWellFormed(jrs, teams, n)
    ensures JoinRequestsWellFormed(jrs - ids, teams, n)
  {
    var jrs' := jrs - ids;
    forall a, b | a in jrs' && b in jrs' && jrs'[a].student == jrs'[b].student && jrs'[a].team == jrs'[b].team
      ensures a == b
    {
      assert jrs[a] == jrs'[a] && jrs[b] == jrs'[b];
    }
  }

  lemma DroppingKeepsFormation(teams: map<TeamId, Team>, jrs: map<nat, JoinRequest>, ids: set<nat>)
    requires Formation(teams, jrs)
    ensures Formation(teams, jrs - ids)
  {
    var jrs' := jrs - ids;
    forall r | r in jrs' && jrs'[r].status == RequestPending ensures !InTeam(teams, jrs'[r].student) {
      assert jrs[r] == jrs'[r];
    }
    forall a, b | (a in jrs' && b in jrs' && jrs'[a].student == jrs'[b].student &&
                   jrs'[a].status == RequestPending && jrs'[b].status == RequestPending)
      ensures a == b
    {
      assert jrs[a] == jrs'[a] && jrs[b] == jrs'[b];
    }
  }

  /** A member added to a team with room keeps the teams well formed. */
  lemma AddMemberKeepsTeams(teams: map<TeamId, Team>, topics: map<TopicId, Topic>, n: nat, t: TeamId, sid: UserId, now: Time)
    requires TeamsWellFormed(teams, topics, n) && t in teams && |teams[t].members| < 4
    ensures TeamsWellFormed(teams[t := teams[t].(members := Added(teams[t].members, sid, now))], topics, n)
  {
  }

  /** The request accepted is the student's pending one, so the student was in no team and
      had no other pending request. */
  lemma AcceptedStudentWasTeamless(teams: map<TeamId, Team>, jrs: map<nat, JoinRequest>, t: TeamId, sid: UserId, rid: nat)
    requires Formation(teams, jrs)
    requires rid in PendingFor(jrs, t, sid)
    ensures !InTeam(teams, sid)
    ensures forall r :: r in jrs && r != rid && jrs[r].status == RequestPending ==> jrs[r].student != sid
  {
  }

  lemma AdmitKeepsPendingTeamless(teams: map<TeamId, Team>, jrs: map<nat, JoinRequest>, t: TeamId, sid: UserId, rid: nat, now: Time)
    requires Formation(teams, jrs) && t in teams
    requires rid in PendingFor(jrs, t, sid)
    ensures PendingMeansTeamless(jrs[rid := jrs[rid].(status := RequestAccepted)],
                                 teams[t := teams[t].(members := Added(teams[t].members, sid, now))])
  {
    AcceptedStudentWasTeamless(teams, jrs, t, sid, rid);
    var jrs' := jrs[rid := jrs[rid].(status := RequestAccepted)];
    var teams' := teams[t := teams[t].(members := Added(teams[t].members, sid, now))];
    forall r | r in jrs' && jrs'[r].status == RequestPending ensures !InTeam(teams', jrs'[r].student) {
      var p := jrs[r].student;
      assert r != rid && jrs[r].status == RequestPending;
      assert !InTeam(teams, p);
      forall u | u in teams' ensures p !in teams'[u].members {
        assert p !in teams[u].members;
      }
    }
  }

  lemma AdmitKeepsOneTeam(teams: map<TeamId, Team>, t: TeamId, sid: UserId, now: Time)
    requires OneTeamPerStudent(teams) && t in teams && !InTeam(teams, sid)
    ensures OneTeamPerStudent(teams[t := teams[t].(members := Added(teams[t].members, sid, now))])
  {
    var teams' := teams[t := teams[t].(members := Added(teams[t].members, sid, now))];
    forall a, b, x | a in teams' && b in teams' && x in teams'[a].members && x in teams'[b].members ensures a == b {
      if x != sid {
        assert x in teams[a].members && x in teams[b].members;
      }
    }
  }

  lemma AdmittedIsConsistent(s: Tables, t: TeamId, sid: UserId, rid: nat, now: Time)
    requires Consistent(s) && t in s.teams && |s.teams[t].members| < 4
    requires rid in PendingFor(s.joinRequests, t, sid)
    ensures Consistent(Admitted(s, t, sid, rid, now))
  {
    var a := Admitted(s, t, sid, rid, now);
    AddMemberKeepsTeams(s.teams, s.topics, s.nextTeamId, t, sid, now);
    MarkKeepsJoinRequests(s.joinRequests, s.teams, s.nextJoinRequestId, rid, RequestAccepted);
    assert JoinRequestsWellFormed(a.joinRequests, a.teams, a.nextJoinRequestId);
    assert SupervisorRequestsWellFormed(a.supervisorRequests, a.teams, a.nextSupervisorRequestId);
    AcceptedStudentWasTeamless(s.teams, s.joinRequests, t, sid, rid);
    AdmitKeepsPendingTeamless(s.teams, s.joinRequests, t, sid, rid, now);
    AdmitKeepsOneTeam(s.teams, t, sid, now);
  }

  /** Accepting keeps the tables consistent: the team stays within four members, and the
      accepted student, who had no team, now has exactly one. */
  lemma AcceptKeepsConsistent(s: Tables, uid: UserId, t: TeamId, sid: UserId, now: Time)
    requires Consistent(s)
    ensures Consistent(AcceptJoinOutcome(s, uid, t, sid, now).tables)
  {
    var o := AcceptJoinOutcome(s, uid, t, sid, now);
    if o.response.status == 200 {
      var rid := MinOf(PendingFor(s.joinRequests, t, sid));
      AdmittedIsConsistent(s, t, sid, rid, now);
      var a := Admitted(s, t, sid, rid, now);
      if |a.teams[t].members| >= 4 {
        var others := OthersPending(a.joinRequests, t, sid);
        DroppingKeepsJoinRequests(a.joinRequests, a.teams, a.nextJoinRequestId, others);
        DroppingKeepsFormation(a.teams, a.joinRequests, others);
      }
    }
  }

  /** The accepted student joins, and the team grows by exactly one. */
  lemma AdmitGrowsTeam(s: Tables, t: TeamId, sid: UserId, rid: nat, now: Time)
    requires Formation(s.teams, s.joinRequests) && t in s.teams
    requires rid in PendingFor(s.joinRequests, t, sid)
    ensures var d := AdmitTables(s, t, sid, rid, now);
            t in d.teams && sid in d.teams[t].members && |d.teams[t].members| == |s.teams[t].members| + 1
  {
    AcceptedStudentWasTeamless(s.teams, s.joinRequests, t, sid, rid);
    assert sid !in s.teams[t].members;
  }

  /** A team that is full after the acceptance has no pending request left. */
  lemma AdmitClearsFullTeam(s: Tables, t: TeamId, sid: UserId, rid: nat, now: Time)
    requires OnePendingPerStudent(s.joinRequests)
    requires t in s.teams && rid in PendingFor(s.joinRequests, t, sid)
    ensures var d := AdmitTables(s, t, sid, rid, now);
            |d.teams[t].members| >= 4 ==>
              forall r :: r in d.joinRequests && d.joinRequests[r].team == t ==> d.joinRequests[r].status != RequestPending
  {
    var a := Admitted(s, t, sid, rid, now);
    var d := AdmitTables(s, t, sid, rid, now);
    if |a.teams[t].members| >= 4 {
      forall r | r in d.joinRequests && d.joinRequests[r].team == t ensures d.joinRequests[r].status != RequestPending {
        if r != rid {
          assert r !in OthersPending(a.joinRequests, t, sid);
        }
      }
    }
  }

  lemma AutoRejectionsCover(jrs: map<nat, JoinRequest>, ids: seq<nat>, title: string, r: nat)
    requires forall i :: 0 <= i < |ids| ==> ids[i] in jrs
    requires r in ids
    ensures r in jrs && AutoRejectedNote(jrs[r].student, title) in AutoRejections(jrs, ids, title)
  {
    var i :| 0 <= i < |ids| && ids[i] == r;
    assert AutoRejections(jrs, ids, title)[i] == AutoRejectedNote(jrs[r].student, title);
  }

  /** Every request the acceptance drops is announced to its student. */
  lemma AdmitAnnouncesDropped(s: Tables, t: TeamId, sid: UserId, rid: nat, now: Time)
    requires t in s.teams && rid in PendingFor(s.joinRequests, t, sid)
    ensures var d := AdmitTables(s, t, sid, rid, now);
            forall r :: r in s.joinRequests && r !in d.joinRequests ==>
              AutoRejectedNote(s.joinRequests[r].student, TitleOf(s, t)) in AdmitNotes(s, t, sid, rid, now)
  {
    var a := Admitted(s, t, sid, rid, now);
    var d := AdmitTables(s, t, sid, rid, now);
    if |a.teams[t].members| >= 4 {
      var others := OthersPending(a.joinRequests, t, sid);
      var ids := Ascending(others);
      var rest := AutoRejections(a.joinRequests, ids, TitleOf(s, t));
      forall r | r in s.joinRequests && r !in d.joinRequests
        ensures AutoRejectedNote(s.joinRequests[r].student, TitleOf(s, t)) in [AcceptedNote(sid, TitleOf(s, t))] + rest
      {
        AutoRejectionsCover(a.joinRequests, ids, TitleOf(s, t), r);
      }
    }
  }

  /** After an acceptance the student is a member and the team has grown by one; a team
      that has become full has no pending request left, and every request that was dropped
      was announced to its student. */
  lemma AcceptFillsAndClears(s: Tables, uid: UserId, t: TeamId, sid: UserId, now: Time)
    requires Consistent(s)
    ensures var o := AcceptJoinOutcome(s, uid, t, sid, now);
            o.response.status == 200 ==>
              && t in o.tables.teams && sid in o.tables.teams[t].members
              && |o.tables.teams[t].members| == |s.teams[t].members| + 1
              && (|o.tables.teams[t].members| == 4 ==>
                    && (forall r :: r in o.tables.joinRequests && o.tables.joinRequests[r].team == t ==>
                          o.tables.joinRequests[r].status != RequestPending)
                    && (forall r :: r in s.joinRequests && r !in o.tables.joinRequests ==>
                          AutoRejectedNote(s.joinRequests[r].student, TitleOf(s, t)) in o.notes))
  {
    var o := AcceptJoinOutcome(s, uid, t, sid, now);
    if o.response.status == 200 {
      var rid := MinOf(PendingFor(s.joinRequests, t, sid));
      assert o == Admit(s, t, sid, rid, now);
      AdmitGrowsTeam(s, t, sid, rid, now);
      AdmitClearsFullTeam(s, t, sid, rid, now);
      AdmitAnnouncesDropped(s, t, sid, rid, now);
    }
  }

  // ---------------------------------------------------------------- RejectJoinRequestView

  /** POST teams/<pk>/reject/<sid>/ by `uid`. */
  function RejectJoinOutcome(s: Tables, uid: UserId, t: TeamId, sid: UserId): Outcome

  {
    if t !in s.teams then Refuse(s, 404, AcceptMissing)
    else if s.teams[t].owner != uid then Refuse(s, 403, OnlyOwnerRejects)
    else
      var found := PendingFor(s.joinRequests, t, sid);
      if found == {} then Refuse(s, 404, AcceptMissing)
      else if |found| > 1 then Refuse(s, 500, MultipleObjectsReturned)
      else
        var rid := MinOf(found);
        Outcome(s.(joinRequests := s.joinRequests[rid := s.joinRequests[rid].(status := RequestRejected)]),
                [Note(sid, YourRequestToJoin + TitleOf(s, t) + WasRejected)],
                Response(200, RequestRejectedMsg))
  }

  lemma RejectJoinGuards(s: Tables, uid: UserId, t: TeamId, sid: UserId)
    ensures var o := RejectJoinOutcome(s, uid, t, sid);
            o.response.status == 200 <==>
              t in s.teams && s.teams[t].owner == uid && |PendingFor(s.joinRequests, t, sid)| == 1
    ensures var o := RejectJoinOutcome(s, uid, t, sid);
            o.response.status != 200 ==> o.tables == s && o.notes == []
    ensures var o := RejectJoinOutcome(s, uid, t, sid);
            o.response.status == 200 ==>
              o.tables.teams == s.teams && o.tables.joinRequests.Keys == s.joinRequests.Keys
  {
  }

  method RejectJoinRequest(db: Database, layer: ChannelLayer, uid: UserId, t: TeamId, sid: UserId) returns (r: Response)
    requires db.NotificationsValid()
    modifies db`joinRequests, db`notifications, db`nextNotificationId, layer`queues
    ensures db.NotificationsValid()
    ensures var o := RejectJoinOutcome(old(db.TeamTables()), uid, t, sid);
            && db.TeamTables() == o.tables && r == o.response
            && Delivered(db, layer, old(db.notifications), old(db.nextNotificationId), old(layer.queues), o.notes)
  {
    if t !in db.teams {
      return Response(404, AcceptMissing);
    }
    if db.teams[t].owner != uid {
      return Response(403, OnlyOwnerRejects);
    }
    var found := PendingFor(db.joinRequests, t, sid);
    if found == {} {
      return Response(404, AcceptMissing);
    }
    if |found| > 1 {
      return Response(500, MultipleObjectsReturned);
    }
    var rid := MinOf(found);
    var title := TitleOf(db.TeamTables(), t);
    db.joinRequests := db.joinRequests[rid := db.joinRequests[rid].(status := RequestRejected)];
    Send(db, layer, Note(sid, YourRequestToJoin + title + WasRejected));
    r := Response(200, RequestRejectedMsg);
  }

  /** Closing a pending request (accepted or rejected) takes nothing from the formation facts. */
  lemma CloseKeepsFormation(teams: map<TeamId, Team>, jrs: map<nat, JoinRequest>, rid: nat, st: RequestStatus)
    requires Formation(teams, jrs) && rid in jrs && st != RequestPending
    ensures Formation(teams, jrs[rid := jrs[rid].(status := st)])
  {
    var jrs' := jrs[rid := jrs[rid].(status := st)];
    forall r | r in jrs' && jrs'[r].status == RequestPending ensures !InTeam(teams, jrs'[r].student) {
      assert jrs[r] == jrs'[r];
    }
    forall a, b | (a in jrs' && b in jrs' && jrs'[a].student == jrs'[b].student &&
                   jrs'[a].status == RequestPending && jrs'[b].status == RequestPending)
      ensures a == b
    {
      assert jrs[a] == jrs'[a] && jrs[b] == jrs'[b];
    }
  }

  lemma RejectKeepsConsistent(s: Tables, uid: UserId, t: TeamId, sid: UserId)
    requires Consistent(s)
    ensures Consistent(RejectJoinOutcome(s, uid, t, sid).tables)
  {
    var o := RejectJoinOutcome(s, uid, t, sid);
    if o.response.status == 200 {
      var rid := MinOf(PendingFor(s.joinRequests, t, sid));
      MarkKeepsJoinRequests(s.joinRequests, s.teams, s.nextJoinRequestId, rid, RequestRejected);
      CloseKeepsFormation(s.teams, s.joinRequests, rid, RequestRejected);
    }
  }

  /** A rejected student may apply to another team at once, but the rejected row keeps the
      pair (student, team) taken: applying to the same team again fails on the unique
      constraint. */
  lemma RejectedStudentCannotReapply(s: Tables, students: map<UserId, StudentProfile>, uid: UserId, t: TeamId, sid: UserId, now: Time)
    requires Consistent(s) && sid in students
    ensures var o := RejectJoinOutcome(s, uid, t, sid);
            o.response.status == 200 ==>
              && !HasPendingJoin(o.tables.joinRequests, sid)
              && JoinTeamOutcome(o.tables, students, sid, t, now).response == Response(500, DuplicatePair)
  {
    var o := RejectJoinOutcome(s, uid, t, sid);
    if o.response.status == 200 {
      var rid := MinOf(PendingFor(s.joinRequests, t, sid));
      var jrs := o.tables.joinRequests;
      forall r | r in jrs && jrs[r].student == sid ensures jrs[r].status != RequestPending {
        if r != rid {
          assert s.joinRequests[r] == jrs[r];
        }
      }
      assert !InTeam(s.teams, sid);
      assert jrs[rid].student == sid && jrs[rid].team == t;
    }
  }

  // ---------------------------------------------------------------- supervisor requests

  /** `Team.objects.filter(owner=uid)` */
  function OwnedTeams(teams: map<TeamId, Team>, uid: UserId): set<TeamId> {
    set t | t in teams && teams[t].owner == uid
  }

  /** `SupervisorRequest.objects.filter(team=team, status='pending')` */
  function PendingSupervision(srs: map<nat, SupervisorRequest>, t: TeamId): set<nat> {
    set r | r in srs && srs[r].team == t && srs[r].status == RequestPending
  }

  /** A row for the pair (team, supervisor) exists, whatever its status. */
  predicate SupervisorPairTaken(srs: map<nat, SupervisorRequest>, t: TeamId, sup: UserId) {
    exists r :: r in srs && srs[r].team == t && srs[r].supervisor == sup
  }

  /** POST supervisor-request/<sup>/ by `uid`: the owner of a team asks a supervisor. */
  function CreateSupervisorRequestOutcome(s: Tables, students: map<UserId, StudentProfile>,
                                          supervisors: map<UserId, SupervisorProfile>,
                                          uid: UserId, sup: UserId, now: Time): Outcome

  {
    if uid !in students then Refuse(s, 403, OnlyStudentsRequest)
    else
      var owned := OwnedTeams(s.teams, uid);
      if owned == {} then Refuse(s, 403, OnlyOwnersRequest)
      else if |owned| > 1 then Refuse(s, 500, MultipleObjectsReturned)
      else
        var t := MinOf(owned);
        if PendingSupervision(s.supervisorRequests, t) != {} then Refuse(s, 400, AlreadyPending)
        else if s.teams[t].supervisor.Some? then Refuse(s, 400, HasSupervisor)
        else if sup !in supervisors then Refuse(s, 404, NotFound)
        else if SupervisorPairTaken(s.supervisorRequests, t, sup) then Refuse(s, 500, DuplicatePair)
        else
          var id := s.nextSupervisorRequestId;
          Outcome(s.(supervisorRequests := s.supervisorRequests[id := SupervisorRequest(t, sup, RequestPending, now)],
                     nextSupervisorRequestId := id + 1),
                  [Note(sup, Text(students[uid].firstName) + RequestsYou)],
                  Response(200, RequestSent))
  }

  lemma CreateSupervisorRequestGuards(s: Tables, students: map<UserId, StudentProfile>,
                                      supervisors: map<UserId, SupervisorProfile>,
                                      uid: UserId, sup: UserId, now: Time)
    ensures var o := CreateSupervisorRequestOutcome(s, students, supervisors, uid, sup, now);
            o.response.status == 200 <==>
              && uid in students && |OwnedTeams(s.teams, uid)| == 1
              && var t := MinOf(OwnedTeams(s.teams, uid));
                 && PendingSupervision(s.supervisorRequests, t) == {} && s.teams[t].supervisor.None?
                 && sup in supervisors && !SupervisorPairTaken(s.supervisorRequests, t, sup)
    ensures var o := CreateSupervisorRequestOutcome(s, students, supervisors, uid, sup, now);
            o.response.status != 200 ==> o.tables == s && o.notes == []
  {
  }

  method CreateSupervisorRequest(db: Database, layer: ChannelLayer, uid: UserId, sup: UserId, now: Time) returns (r: Response)
    requires db.NotificationsValid()
    modifies db`supervisorRequests, db`nextSupervisorRequestId, db`notifications, db`nextNotificationId, layer`queues
    ensures db.NotificationsValid()
    ensures var o := CreateSupervisorRequestOutcome(old(db.TeamTables()), db.students, db.supervisors, uid, sup, now);
            && db.TeamTables() == o.tables && r == o.response
            && Delivered(db, layer, old(db.notifications), old(db.nextNotificationId), old(layer.queues), o.notes)
  {
    ghost var s0 := db.TeamTables();
    if uid !in db.students {
      return Response(403, OnlyStudentsRequest);
    }
    var owned := OwnedTeams(db.teams, uid);
    if owned == {} {
      return Response(403, OnlyOwnersRequest);
    }
    if |owned| > 1 {
      return Response(500, MultipleObjectsReturned);
    }
    var t := MinOf(owned);
    if PendingSupervision(db.supervisorRequests, t) != {} {
      return Response(400, AlreadyPending);
    }
    if db.teams[t].supervisor.Some? {
      return Response(400, HasSupervisor);
    }
    if sup !in db.supervisors {
      return Response(404, NotFound);
    }
    if SupervisorPairTaken(db.supervisorRequests, t, sup) {
      return Response(500, DuplicatePair);
    }
    var id := db.nextSupervisorRequestId;
    db.supervisorRequests := db.supervisorRequests[id := SupervisorRequest(t, sup, RequestPending, now)];
    db.nextSupervisorRequestId := id + 1;
    assert db.TeamTables() == CreateSupervisorRequestOutcome(s0, db.students, db.supervisors, uid, sup, now).tables;
    Send(db, layer, Note(sup, Text(db.students[uid].firstName) + RequestsYou));
    r := Response(200, RequestSent);
  }

  lemma InsertKeepsSupervisorRequests(srs: map<nat, SupervisorRequest>, teams: map<TeamId, Team>, n: nat,
                                      t: TeamId, sup: UserId, now: Time)
    requires SupervisorRequestsWellFormed(srs, teams, n) && t in teams && !SupervisorPairTaken(srs, t, sup)
    ensures SupervisorRequestsWellFormed(srs[n := SupervisorRequest(t, sup, RequestPending, now)], teams, n + 1)
  {
    var srs' := srs[n := SupervisorRequest(t, sup, RequestPending, now)];
    forall a, b | a in srs' && b in srs' && srs'[a].team == srs'[b].team && srs'[a].supervisor == srs'[b].supervisor
      ensures a == b
    {
      if a != n && b != n {
        assert srs[a] == srs'[a] && srs[b] == srs'[b];
      }
    }
  }

  lemma InsertKeepsOnePending(srs: map<nat, SupervisorRequest>, n: nat, t: TeamId, sup: UserId, now: Time)
    requires OnePendingPerTeam(srs) && n !in srs && PendingSupervision(srs, t) == {}
    ensures OnePendingPerTeam(srs[n := SupervisorRequest(t, sup, RequestPending, now)])
  {
    var srs' := srs[n := SupervisorRequest(t, sup, RequestPending, now)];
    forall a, b | (a in srs' && b in srs' && srs'[a].team == srs'[b].team &&
                   srs'[a].status == RequestPending && srs'[b].status == RequestPending)
      ensures a == b
    {
      if a != n {
        assert srs[a] == srs'[a] && a !in PendingSupervision(srs, t);
      }
      if b != n {
        assert srs[b] == srs'[b] && b !in PendingSupervision(srs, t);
      }
    }
  }

  lemma CreateSupervisorRequestKeepsConsistent(s: Tables, students: map<UserId, StudentProfile>,
                                               supervisors: map<UserId, SupervisorProfile>, uid: UserId, sup: UserId, now: Time)
    requires Consistent(s)
    ensures Consistent(CreateSupervisorRequestOutcome(s, students, supervisors, uid, sup, now).tables)
  {
    var o := CreateSupervisorRequestOutcome(s, students, supervisors, uid, sup, now);
    CreateSupervisorRequestGuards(s, students, supervisors, uid, sup, now);
    if o.response.status == 200 {
      var t := MinOf(OwnedTeams(s.teams, uid));
      var n := s.nextSupervisorRequestId;
      assert n !in s.supervisorRequests;
      InsertKeepsSupervisorRequests(s.supervisorRequests, s.teams, n, t, sup, now);
      InsertKeepsOnePending(s.supervisorRequests, n, t, sup, now);
    }
  }

  // ---------------------------------------------------------------- AcceptSupervisorRequestView

  /** The request's team after acceptance: the supervisor is assigned and becomes the owner. */
  function Assigned(team: Team, sup: UserId): (a: Team)
    ensures a.members == team.members && a.topic == team.topic
    ensures a.supervisor == Some(sup) && a.owner == sup && a.status == Accepted
  {
    team.(supervisor := Some(sup), owner := sup, status := Accepted)
  }

  /** The recipient of the acceptance notice as written: `team.owner` is read after it has
      been set to the supervisor. */
  function AcceptanceRecipientAsWritten(s: Tables, rid: nat): (u: UserId)
    requires rid in s.supervisorRequests && s.supervisorRequests[rid].team in s.teams
    ensures u == s.supervisorRequests[rid].supervisor
  {
    var req := s.supervisorRequests[rid];
    Assigned(s.teams[req.team], req.supervisor).owner
  }

  /** As written, the student who asked for supervision is never told that it was granted:
      the notice always goes to the supervisor who accepted. */
  lemma RequesterNeverToldAsWritten(s: Tables, rid: nat)
    requires rid in s.supervisorRequests && s.supervisorRequests[rid].team in s.teams
    requires s.teams[s.supervisorRequests[rid].team].owner != s.supervisorRequests[rid].supervisor
    ensures AcceptanceRecipientAsWritten(s, rid) != s.teams[s.supervisorRequests[rid].team].owner
  {
  }

  /** POST supervisor-request/<rid>/accept/ by `uid`. The notice goes to the team's owner as
      it was before the supervisor took the team over. */
  function AcceptSupervisorOutcome(s: Tables, supervisors: map<UserId, SupervisorProfile>, uid: UserId, rid: nat): Outcome
    requires rid in s.supervisorRequests ==> s.supervisorRequests[rid].team in s.teams
  {
    if uid !in supervisors then Refuse(s, 403, OnlySupervisorsAccept)
    else if rid !in s.supervisorRequests || s.supervisorRequests[rid].supervisor != uid then Refuse(s, 404, RequestNotFound)
    else
      var t := s.supervisorRequests[rid].team;
      Outcome(s.(teams := s.teams[t := Assigned(s.teams[t], uid)],
                 supervisorRequests := s.supervisorRequests[rid := s.supervisorRequests[rid].(status := RequestAccepted)]),
              [Note(s.teams[t].owner, SupervisionAccepted)],
              Response(200, TeamAssigned))
  }

  method AcceptSupervisorRequest(db: Database, layer: ChannelLayer, uid: UserId, rid: nat) returns (r: Response)
    requires rid in db.supervisorRequests ==> db.supervisorRequests[rid].team in db.teams
    requires db.NotificationsValid()
    modifies db`teams, db`supervisorRequests, db`notifications, db`nextNotificationId, layer`queues
    ensures db.NotificationsValid()
    ensures var o := AcceptSupervisorOutcome(old(db.TeamTables()), db.supervisors, uid, rid);
            && db.TeamTables() == o.tables && r == o.response
            && Delivered(db, layer, old(db.notifications), old(db.nextNotificationId), old(layer.queues), o.notes)
  {
    ghost var s0 := db.TeamTables();
    if uid !in db.supervisors {
      return Response(403, OnlySupervisorsAccept);
    }
    if rid !in db.supervisorRequests || db.supervisorRequests[rid].supervisor != uid {
      return Response(404, RequestNotFound);
    }
    var t := db.supervisorRequests[rid].team;
    var requester := db.teams[t].owner;
    db.teams := db.teams[t := Assigned(db.teams[t], uid)];
    db.supervisorRequests := db.supervisorRequests[rid := db.supervisorRequests[rid].(status := RequestAccepted)];
    assert db.TeamTables() == AcceptSupervisorOutcome(s0, db.supervisors, uid, rid).tables;
    Send(db, layer, Note(requester, SupervisionAccepted));
    r := Response(200, TeamAssigned);
  }

  /** The student owner who asked is the one told; the supervisor now leads the team, whose
      members are unchanged. */
  lemma AcceptSupervisorTellsRequester(s: Tables, supervisors: map<UserId, SupervisorProfile>, uid: UserId, rid: nat)
    requires rid in s.supervisorRequests ==> s.supervisorRequests[rid].team in s.teams
    ensures var o := AcceptSupervisorOutcome(s, supervisors, uid, rid);
            && (o.response.status == 200 <==>
                  uid in supervisors && rid in s.supervisorRequests && s.supervisorRequests[rid].supervisor == uid)
            && (o.response.status != 200 ==> o.tables == s && o.notes == [])
            && (o.response.status == 200 ==>
                  var t := s.supervisorRequests[rid].team;
                  && o.notes == [Note(s.teams[t].owner, SupervisionAccepted)]
                  && o.tables.teams[t].owner == uid && o.tables.teams[t].supervisor == Some(uid)
                  && o.tables.teams[t].members == s.teams[t].members)
  {
  }

  /** Replacing a team by one on the same topic whose members are among the old ones keeps
      the team table well formed. */
  lemma ReplacingKeepsTeams(teams: map<TeamId, Team>, topics: map<TopicId, Topic>, n: nat, t: TeamId, team: Team)
    requires TeamsWellFormed(teams, topics, n) && t in teams
    requires team.topic == teams[t].topic && team.members.Keys <= teams[t].members.Keys
    ensures TeamsWellFormed(teams[t := team], topics, n)
  {
    var teams' := teams[t := team];
    SubsetCard(team.members.Keys, teams[t].members.Keys);
    forall a, b | a in teams' && b in teams' && teams'[a].topic == teams'[b].topic ensures a == b {
      assert teams[a].topic == teams[b].topic;
    }
  }

  /** ... and the formation facts: nobody joins a team by it. */
  lemma ReplacingKeepsFormation(teams: map<TeamId, Team>, jrs: map<nat, JoinRequest>, t: TeamId, team: Team)
    requires Formation(teams, jrs) && t in teams && team.members.Keys <= teams[t].members.Keys
    ensures Formation(teams[t := team], jrs)
  {
    var teams' := teams[t := team];
    forall r | r in jrs && jrs[r].status == RequestPending ensures !InTeam(teams', jrs[r].student) {
      assert !InTeam(teams, jrs[r].student);
      forall u | u in teams' ensures jrs[r].student !in teams'[u].members {
        assert jrs[r].student !in teams[u].members;
      }
    }
    forall a, b, x | a in teams' && b in teams' && x in teams'[a].members && x in teams'[b].members ensures a == b {
      assert x in teams[a].members && x in teams[b].members;
    }
  }

  lemma ReplacingKeepsConsistent(s: Tables, t: TeamId, team: Team)
    requires Consistent(s) && t in s.teams
    requires team.topic == s.teams[t].topic && team.members.Keys <= s.teams[t].members.Keys
    ensures Consistent(s.(teams := s.teams[t := team]))
  {
    ReplacingKeepsTeams(s.teams, s.topics, s.nextTeamId, t, team);
    ReplacingKeepsFormation(s.teams, s.joinRequests, t, team);
  }

  /** Closing a supervisor request keeps its table well formed. */
  lemma ClosingKeepsSupervisorRequests(srs: map<nat, SupervisorRequest>, teams: map<TeamId, Team>, n: nat,
                                       rid: nat, st: RequestStatus)
    requires SupervisorRequestsWellFormed(srs, teams, n) && OnePendingPerTeam(srs)
    requires rid in srs && st != RequestPending
    ensures SupervisorRequestsWellFormed(srs[rid := srs[rid].(status := st)], teams, n)
    ensures OnePendingPerTeam(srs[rid := srs[rid].(status := st)])
  {
    var srs' := srs[rid := srs[rid].(status := st)];
    forall a, b | a in srs' && b in srs' && srs'[a].team == srs'[b].team && srs'[a].supervisor == srs'[b].supervisor
      ensures a == b
    {
      assert srs[a].team == srs[b].team && srs[a].supervisor == srs[b].supervisor;
    }
    forall a, b | (a in srs' && b in srs' && srs'[a].team == srs'[b].team &&
                   srs'[a].status == RequestPending && srs'[b].status == RequestPending)
      ensures a == b
    {
      assert srs[a] == srs'[a] && srs[b] == srs'[b];
    }
  }

  /** Deleting supervisor requests keeps their table well formed. */
  lemma DroppingKeepsSupervisorRequests(srs: map<nat, SupervisorRequest>, teams: map<TeamId, Team>, n: nat, ids: set<nat>)
    requires SupervisorRequestsWellFormed(srs, teams, n) && OnePendingPerTeam(srs)
    ensures SupervisorRequestsWellFormed(srs - ids, teams, n) && OnePendingPerTeam(srs - ids)
  {
    var srs' := srs - ids;
    forall a, b | a in srs' && b in srs' && srs'[a].team == srs'[b].team && srs'[a].supervisor == srs'[b].supervisor
      ensures a == b
    {
      assert srs[a] == srs'[a] && srs[b] == srs'[b];
    }
    forall a, b | (a in srs' && b in srs' && srs'[a].team == srs'[b].team &&
                   srs'[a].status == RequestPending && srs'[b].status == RequestPending)
      ensures a == b
    {
      assert srs[a] == srs'[a] && srs[b] == srs'[b];
    }
  }

  lemma AcceptSupervisorKeepsConsistent(s: Tables, supervisors: map<UserId, SupervisorProfile>, uid: UserId, rid: nat)
    requires Consistent(s)
    ensures Consistent(AcceptSupervisorOutcome(s, supervisors, uid, rid).tables)
  {
    var o := AcceptSupervisorOutcome(s, supervisors, uid, rid);
    if o.response.status == 200 {
      var t := s.supervisorRequests[rid].team;
      var s1 := s.(teams := s.teams[t := Assigned(s.teams[t], uid)]);
      ReplacingKeepsConsistent(s, t, Assigned(s.teams[t], uid));
      ClosingKeepsSupervisorRequests(s1.supervisorRequests, s1.teams, s1.nextSupervisorRequestId, rid, RequestAccepted);
      assert o.tables == s1.(supervisorRequests := s1.supervisorRequests[rid := s1.supervisorRequests[rid].(status := RequestAccepted)]);
    }
  }

  // ---------------------------------------------------------------- RejectSupervisorRequestView

  /** POST supervisor-request/<rid>/reject/ by `uid`: the team's current owner is told. */
  function RejectSupervisorOutcome(s: Tables, supervisors: map<UserId, SupervisorProfile>, uid: UserId, rid: nat): Outcome
    requires rid in s.supervisorRequests ==> s.supervisorRequests[rid].team in s.teams
  {
    if uid !in supervisors then Refuse(s, 403, OnlySupervisorsReject)
    else if rid !in s.supervisorRequests || s.supervisorRequests[rid].supervisor != uid then Refuse(s, 404, RequestNotFound)
    else
      Outcome(s.(supervisorRequests := s.supervisorRequests[rid := s.supervisorRequests[rid].(status := RequestRejected)]),
              [Note(s.teams[s.supervisorRequests[rid].team].owner, SupervisionRejected)],
              Response(200, RequestRejectedMsg))
  }

  method RejectSupervisorRequest(db: Database, layer: ChannelLayer, uid: UserId, rid: nat) returns (r: Response)
    requires rid in db.supervisorRequests ==> db.supervisorRequests[rid].team in db.teams
    requires db.NotificationsValid()
    modifies db`supervisorRequests, db`notifications, db`nextNotificationId, layer`queues
    ensures db.NotificationsValid()
    ensures var o := RejectSupervisorOutcome(old(db.TeamTables()), db.supervisors, uid, rid);
            && db.TeamTables() == o.tables && r == o.response
            && Delivered(db, layer, old(db.notifications), old(db.nextNotificationId), old(layer.queues), o.notes)
  {
    if uid !in db.supervisors {
      return Response(403, OnlySupervisorsReject);
    }
    if rid !in db.supervisorRequests || db.supervisorRequests[rid].supervisor != uid {
      return Response(404, RequestNotFound);
    }
    db.supervisorRequests := db.supervisorRequests[rid := db.supervisorRequests[rid].(status := RequestRejected)];
    Send(db, layer, Note(db.teams[db.supervisorRequests[rid].team].owner, SupervisionRejected));
    r := Response(200, RequestRejectedMsg);
  }

  /** Closing the one pending request of a team leaves it with none. */
  lemma ClosingFreesTeam(srs: map<nat, SupervisorRequest>, rid: nat, st: RequestStatus)
    requires OnePendingPerTeam(srs) && rid in srs && srs[rid].status == RequestPending && st != RequestPending
    ensures PendingSupervision(srs[rid := srs[rid].(status := st)], srs[rid].team) == {}
  {
    var srs' := srs[rid := srs[rid].(status := st)];
    forall r | r in srs' && srs'[r].team == srs[rid].team ensures srs'[r].status != RequestPending {
      if r != rid {
        assert srs[r] == srs'[r];
      }
    }
  }

  /** Rejection keeps the tables consistent; rejecting a pending request leaves the team
      without one, so its owner may ask another supervisor. */
  lemma RejectSupervisorFreesTeam(s: Tables, supervisors: map<UserId, SupervisorProfile>, uid: UserId, rid: nat)
    requires Consistent(s)
    ensures var o := RejectSupervisorOutcome(s, supervisors, uid, rid);
            && Consistent(o.tables)
            && (o.response.status == 200 <==>
                  uid in supervisors && rid in s.supervisorRequests && s.supervisorRequests[rid].supervisor == uid)
            && (o.response.status == 200 && s.supervisorRequests[rid].status == RequestPending ==>
                  PendingSupervision(o.tables.supervisorRequests, s.supervisorRequests[rid].team) == {})
  {
    var o := RejectSupervisorOutcome(s, supervisors, uid, rid);
    if o.response.status == 200 {
      ClosingKeepsSupervisorRequests(s.supervisorRequests, s.teams, s.nextSupervisorRequestId, rid, RequestRejected);
      if s.supervisorRequests[rid].status == RequestPending {
        ClosingFreesTeam(s.supervisorRequests, rid, RequestRejected);
      }
    }
  }

  // ---------------------------------------------------------------- CancelSupervisorRequestView

  /** POST supervisor-request/cancel/ by `uid`: delete the pending request of the team `uid` owns. */
  function CancelSupervisorOutcome(s: Tables, uid: UserId): Outcome {
    var owned := OwnedTeams(s.teams, uid);
    if owned == {} then Refuse(s, 404, NoPendingRequest)
    else if |owned| > 1 then Refuse(s, 500, MultipleObjectsReturned)
    else
      var pending := PendingSupervision(s.supervisorRequests, MinOf(owned));
      if pending == {} then Refuse(s, 404, NoPendingRequest)
      else if |pending| > 1 then Refuse(s, 500, MultipleObjectsReturned)
      else Outcome(s.(supervisorRequests := s.supervisorRequests - pending), [], Response(200, RequestCanceled))
  }

  method CancelSupervisorRequest(db: Database, uid: UserId) returns (r: Response)
    modifies db`supervisorRequests
    ensures var o := CancelSupervisorOutcome(old(db.TeamTables()), uid);
            db.TeamTables() == o.tables && r == o.response
  {
    var owned := OwnedTeams(db.teams, uid);
    if owned == {} {
      return Response(404, NoPendingRequest);
    }
    if |owned| > 1 {
      return Response(500, MultipleObjectsReturned);
    }
    var pending := PendingSupervision(db.supervisorRequests, MinOf(owned));
    if pending == {} {
      return Response(404, NoPendingRequest);
    }
    if |pending| > 1 {
      return Response(500, MultipleObjectsReturned);
    }
    db.supervisorRequests := db.supervisorRequests - pending;
    r := Response(200, RequestCanceled);
  }

  /** Cancelling deletes exactly the one pending request of the owner's team. */
  lemma CancelSupervisorRemovesPending(s: Tables, uid: UserId)
    requires Consistent(s)
    ensures var o := CancelSupervisorOutcome(s, uid);
            && Consistent(o.tables)
            && (o.response.status == 200 ==>
                  var t := MinOf(OwnedTeams(s.teams, uid));
                  && |s.supervisorRequests.Keys - o.tables.supervisorRequests.Keys| == 1
                  && PendingSupervision(o.tables.supervisorRequests, t) == {})
  {
    var o := CancelSupervisorOutcome(s, uid);
    if o.response.status == 200 {
      var t := MinOf(OwnedTeams(s.teams, uid));
      var pending := PendingSupervision(s.supervisorRequests, t);
      DroppingKeepsSupervisorRequests(s.supervisorRequests, s.teams, s.nextSupervisorRequestId, pending);
      assert o.tables == s.(supervisorRequests := s.supervisorRequests - pending);
      assert s.supervisorRequests.Keys - o.tables.supervisorRequests.Keys == pending;
    }
  }

  // ---------------------------------------------------------------- LikeToggleView

  /** POST teams/<t>/like/ by `uid`. */
  function LikeToggleOutcome(s: Tables, uid: UserId, t: TeamId): Outcome {
    if t !in s.teams then Refuse(s, 404, TeamNotFoundLike)
    else if (uid, t) in s.likes then Outcome(s.(likes := ToggleLike(s.likes, (uid, t))), [], Response(200, Unliked))
    else Outcome(s.(likes := ToggleLike(s.likes, (uid, t))), [], Response(201, Liked))
  }

  method LikeToggle(db: Database, uid: UserId, t: TeamId) returns (r: Response)
    modifies db`likes
    ensures var o := LikeToggleOutcome(old(db.TeamTables()), uid, t);
            db.TeamTables() == o.tables && r == o.response
  {
    if t !in db.teams {
      return Response(404, TeamNotFoundLike);
    }
    if (uid, t) in db.likes {
      db.likes := db.likes - {(uid, t)};
      r := Response(200, Unliked);
    } else {
      db.likes := db.likes + {(uid, t)};
      r := Response(201, Liked);
    }
  }

  /** The response says which way the like went; two toggles restore the likes. */
  lemma LikeToggleReports(s: Tables, uid: UserId, t: TeamId)
    ensures var o := LikeToggleOutcome(s, uid, t);
            && (t in s.teams ==> ((uid, t) in o.tables.likes <==> o.response == Response(201, Liked)))
            && (t in s.teams ==> LikeToggleOutcome(o.tables, uid, t).tables == s)
            && (t !in s.teams ==> o.tables == s && o.response.status == 404)
            && o.tables.(likes := s.likes) == s
  {
    var o := LikeToggleOutcome(s, uid, t);
    if t in s.teams {
      ToggleTwiceRestores(s.likes, (uid, t));
    }
  }

  // ---------------------------------------------------------------- leaving and removing members

  /** `Team.objects.filter(members=student)` */
  function MemberTeams(teams: map<TeamId, Team>, sid: UserId): set<TeamId> {
    set t | t in teams && sid in teams[t].members
  }

  /** `team.members.remove(student)`, then the topic's author cleared if it was that student. */
  function Withdrawn(s: Tables, t: TeamId, sid: UserId): (w: Tables)
    requires t in s.teams
    ensures t in w.teams && w.teams[t].members == s.teams[t].members - {sid}
  {
    var team := s.teams[t];
    var s1 := s.(teams := s.teams[t := team.(members := team.members - {sid})]);
    if team.topic in s.topics && s.topics[team.topic].createdByStudent == Some(sid)
    then s1.(topics := s.topics[team.topic := s.topics[team.topic].(createdByStudent := None)])
    else s1
  }

  /** What follows `team.members.remove(student)` when a member who is not the owner leaves:
      the owner is told, and a team left empty with no supervisor is deleted with its topic. */
  function MemberLeft(w: Tables, t: TeamId, told: Note): Outcome
    requires t in w.teams
  {
    if w.teams[t].members == map[] && w.teams[t].supervisor.None? then Outcome(Deleted(w, t), [told], Response(200, LastMemberLeft))
    else Outcome(w, [told], Response(200, LeftTeam))
  }

  /** ... and when the owner leaves: the member who joined first becomes the owner and is told,
      and a team left empty is deleted with its topic (with no supervisor by the first test,
      with one because no member is left to take over). */
  function OwnerLeft(w: Tables, t: TeamId): Outcome
    requires t in w.teams
  {
    match Earliest(w.teams[t].members)
    case Some(m) => Outcome(w.(teams := w.teams[t := w.teams[t].(owner := m)]), [Note(m, NowOwner)], Response(200, LeftTeam))
    case None => Outcome(Deleted(w, t), [], Response(200, LastMemberLeft))
  }

  /** POST teams/leave/ by `uid`. */
  function LeaveTeamOutcome(s: Tables, students: map<UserId, StudentProfile>, uid: UserId): Outcome {
    var ts := MemberTeams(s.teams, uid);
    if uid !in students then Refuse(s, 403, OnlyStudentsLeave)
    else if ts == {} then Refuse(s, 404, NotInATeam)
    else if |ts| > 1 then Refuse(s, 500, MultipleObjectsReturned)
    else
      var t := MinOf(ts);
      if s.teams[t].owner == uid then OwnerLeft(Withdrawn(s, t, uid), t)
      else MemberLeft(Withdrawn(s, t, uid), t, Note(s.teams[t].owner, FullName(students[uid]) + HasLeft))
  }

  lemma LeaveTeamGuards(s: Tables, students: map<UserId, StudentProfile>, uid: UserId)
    ensures var o := LeaveTeamOutcome(s, students, uid);
            && (o.response.status == 200 <==> uid in students && |MemberTeams(s.teams, uid)| == 1)
            && (o.response.status != 200 ==> o.tables == s && o.notes == [])
  {
  }

  method LeaveTeam(db: Database, layer: ChannelLayer, uid: UserId) returns (r: Response)
    requires db.NotificationsValid()
    modifies db`teams, db`topics, db`joinRequests, db`supervisorRequests, db`likes
    modifies db`notifications, db`nextNotificationId, layer`queues
    ensures db.NotificationsValid()
    ensures var o := LeaveTeamOutcome(old(db.TeamTables()), db.students, uid);
            && db.TeamTables() == o.tables && r == o.response
            && Delivered(db, layer, old(db.notifications), old(db.nextNotificationId), old(layer.queues), o.notes)
  {
    var ts := MemberTeams(db.teams, uid);
    if uid !in db.students {
      return Response(403, OnlyStudentsLeave);
    }
    if ts == {} {
      return Response(404, NotInATeam);
    }
    if |ts| > 1 {
      return Response(500, MultipleObjectsReturned);
    }
    var t := MinOf(ts);
    var owner := db.teams[t].owner;
    Withdraw(db, t, uid);
    if owner == uid {
      r := HandOver(db, layer, t);
    } else {
      r := Depart(db, layer, t, Note(owner, FullName(db.students[uid]) + HasLeft));
    }
  }

  /** `team.members.remove(student)` and the clearing of the topic's author. */
  method Withdraw(db: Database, t: TeamId, sid: UserId)
    requires t in db.teams
    modifies db`teams, db`topics
    ensures db.TeamTables() == Withdrawn(old(db.TeamTables()), t, sid)
  {
    var team := db.teams[t];
    db.teams := db.teams[t := team.(members := team.members - {sid})];
    if team.topic in db.topics && db.topics[team.topic].createdByStudent == Some(sid) {
      db.topics := db.topics[team.topic := db.topics[team.topic].(createdByStudent := None)];
    }
  }

  method Depart(db: Database, layer: ChannelLayer, t: TeamId, told: Note) returns (r: Response)
    requires t in db.teams && db.NotificationsValid()
    modifies db`teams, db`topics, db`joinRequests, db`supervisorRequests, db`likes
    modifies db`notifications, db`nextNotificationId, layer`queues
    ensures db.NotificationsValid()
    ensures var o := MemberLeft(old(db.TeamTables()), t, told);
            && db.TeamTables() == o.tables && r == o.response
            && Delivered(db, layer, old(db.notifications), old(db.nextNotificationId), old(layer.queues), o.notes)
  {
    Send(db, layer, told);
    if db.teams[t].members == map[] && db.teams[t].supervisor.None? {
      DeleteTeamAndTopic(db, t);
      r := Response(200, LastMemberLeft);
    } else {
      r := Response(200, LeftTeam);
    }
  }

  method HandOver(db: Database, layer: ChannelLayer, t: TeamId) returns (r: Response)
    requires t in db.teams && db.NotificationsValid()
    modifies db`teams, db`topics, db`joinRequests, db`supervisorRequests, db`likes
    modifies db`notifications, db`nextNotificationId, layer`queues
    ensures db.NotificationsValid()
    ensures var o := OwnerLeft(old(db.TeamTables()), t);
            && db.TeamTables() == o.tables && r == o.response
            && Delivered(db, layer, old(db.notifications), old(db.nextNotificationId), old(layer.queues), o.notes)
  {
    var next := Earliest(db.teams[t].members);
    if next.Some? {
      db.teams := db.teams[t := db.teams[t].(owner := next.value)];
      Send(db, layer, Note(next.value, NowOwner));
      r := Response(200, LeftTeam);
    } else {
      DeleteTeamAndTopic(db, t);
      SendEach(db, layer, []);
      r := Response(200, LastMemberLeft);
    }
  }

  /** Clearing a topic's author keeps the tables consistent. */
  lemma ClearingCreatorKeepsConsistent(s: Tables, k: TopicId)
    requires Consistent(s) && k in s.topics
    ensures Consistent(s.(topics := s.topics[k := s.topics[k].(createdByStudent := None)]))
  {
  }

  lemma WithdrawnIsConsistent(s: Tables, t: TeamId, sid: UserId)
    requires Consistent(s) && t in s.teams
    ensures Consistent(Withdrawn(s, t, sid))
  {
    var team := s.teams[t];
    var s1 := s.(teams := s.teams[t := team.(members := team.members - {sid})]);
    ReplacingKeepsConsistent(s, t, team.(members := team.members - {sid}));
    if team.topic in s.topics && s.topics[team.topic].createdByStudent == Some(sid) {
      ClearingCreatorKeepsConsistent(s1, team.topic);
    }
  }

  lemma LeaveKeepsConsistent(s: Tables, students: map<UserId, StudentProfile>, uid: UserId)
    requires Consistent(s)
    ensures Consistent(LeaveTeamOutcome(s, students, uid).tables)
  {
    var o := LeaveTeamOutcome(s, students, uid);
    LeaveTeamGuards(s, students, uid);
    if o.response.status == 200 {
      var t := MinOf(MemberTeams(s.teams, uid));
      var w := Withdrawn(s, t, uid);
      WithdrawnIsConsistent(s, t, uid);
      DeletionKeepsConsistent(w, t);
      var next := Earliest(w.teams[t].members);
      if next.Some? {
        ReplacingKeepsConsistent(w, t, w.teams[t].(owner := next.value));
      }
      assert o == if s.teams[t].owner == uid then OwnerLeft(w, t)
                  else MemberLeft(w, t, Note(s.teams[t].owner, FullName(students[uid]) + HasLeft));
    }
  }

  /** Under the formation invariant the teams a member belongs to are exactly one. */
  lemma OnlyTeamOf(s: Tables, uid: UserId)
    requires Formation(s.teams, s.joinRequests) && MemberTeams(s.teams, uid) != {}
    ensures MemberTeams(s.teams, uid) == {MinOf(MemberTeams(s.teams, uid))}
  {
    var ts := MemberTeams(s.teams, uid);
    var t := MinOf(ts);
    forall u | u in ts ensures u == t {
      TeamOfStudentIsUnique(s.teams, s.joinRequests, uid, u, t);
    }
  }

  lemma WithdrawnLeavesTeamless(s: Tables, t: TeamId, uid: UserId)
    requires t in s.teams && MemberTeams(s.teams, uid) == {t}
    ensures !InTeam(Withdrawn(s, t, uid).teams, uid)
  {
    var w := Withdrawn(s, t, uid);
    forall u | u in w.teams ensures uid !in w.teams[u].members {
      if u != t {
        assert u !in MemberTeams(s.teams, uid);
      }
    }
  }

  /** Neither handing the team over nor deleting it puts anyone back into a team. */
  lemma SettlingKeepsOut(w: Tables, t: TeamId, uid: UserId, told: Note)
    requires t in w.teams && !InTeam(w.teams, uid)
    ensures !InTeam(OwnerLeft(w, t).tables.teams, uid) && !InTeam(MemberLeft(w, t, told).tables.teams, uid)
  {
    var next := Earliest(w.teams[t].members);
    if next.Some? {
      var teams := OwnerLeft(w, t).tables.teams;
      forall u | u in teams ensures uid !in teams[u].members {
        assert uid !in w.teams[u].members;
      }
    }
  }

  /** Under the formation invariant a student is never in two teams, so leaving never fails
      with 500, and a student who has left is in no team. */
  lemma LeaverIsTeamless(s: Tables, students: map<UserId, StudentProfile>, uid: UserId)
    requires Consistent(s)
    ensures var o := LeaveTeamOutcome(s, students, uid);
            && o.response.status != 500
            && (o.response.status == 200 ==> !InTeam(o.tables.teams, uid))
  {
    var ts := MemberTeams(s.teams, uid);
    if ts != {} {
      OnlyTeamOf(s, uid);
      var t := MinOf(ts);
      if uid in students {
        var told := Note(s.teams[t].owner, FullName(students[uid]) + HasLeft);
        WithdrawnLeavesTeamless(s, t, uid);
        SettlingKeepsOut(Withdrawn(s, t, uid), t, uid, told);
      }
    }
  }

  /** An owner who leaves a team that survives hands it to the remaining member who joined
      first, and tells that member; anyone else who leaves tells the owner. */
  lemma LeaveHandsOverToEarliest(s: Tables, students: map<UserId, StudentProfile>, uid: UserId)
    requires uid in students && |MemberTeams(s.teams, uid)| == 1
    ensures var t := MinOf(MemberTeams(s.teams, uid));
            var o := LeaveTeamOutcome(s, students, uid);
            && (s.teams[t].owner != uid ==> o.notes == [Note(s.teams[t].owner, FullName(students[uid]) + HasLeft)])
            && (s.teams[t].owner == uid && t in o.tables.teams ==>
                  var rest := s.teams[t].members - {uid};
                  && IsEarliest(rest, o.tables.teams[t].owner)
                  && o.notes == [Note(o.tables.teams[t].owner, NowOwner)])
            && (t !in o.tables.teams <==>
                  (s.teams[t].members - {uid} == map[] && (s.teams[t].owner == uid || s.teams[t].supervisor.None?)))
  {
  }

  // ---------------------------------------------------------------- SupervisorDeleteTeamView

  /** DELETE teams/<t>/supervisor-delete/ by `uid`. */
  function SupervisorDeleteOutcome(s: Tables, supervisors: map<UserId, SupervisorProfile>, uid: UserId, t: TeamId): Outcome {
    if uid !in supervisors then Refuse(s, 403, OnlySupervisorsDelete)
    else if t !in s.teams then Refuse(s, 404, TeamNotFound)
    else if s.teams[t].supervisor != Some(uid) then Refuse(s, 403, NotTheSupervisor)
    else if s.teams[t].members != map[] then Refuse(s, 400, TeamHasMembers)
    else Outcome(Deleted(s, t), [], Response(200, TeamDeleted))
  }

  method SupervisorDeleteTeam(db: Database, uid: UserId, t: TeamId) returns (r: Response)
    modifies db`teams, db`topics, db`joinRequests, db`supervisorRequests, db`likes
    ensures var o := SupervisorDeleteOutcome(old(db.TeamTables()), db.supervisors, uid, t);
            db.TeamTables() == o.tables && r == o.response
  {
    if uid !in db.supervisors {
      return Response(403, OnlySupervisorsDelete);
    }
    if t !in db.teams {
      return Response(404, TeamNotFound);
    }
    if db.teams[t].supervisor != Some(uid) {
      return Response(403, NotTheSupervisor);
    }
    if db.teams[t].members != map[] {
      return Response(400, TeamHasMembers);
    }
    DeleteTeamAndTopic(db, t);
    r := Response(200, TeamDeleted);
  }

  /** Only the team's own supervisor deletes it, and only once it is empty; the deletion
      keeps the tables consistent and takes the team's topic with it. */
  lemma SupervisorDeleteOnlyEmpty(s: Tables, supervisors: map<UserId, SupervisorProfile>, uid: UserId, t: TeamId)
    requires Consistent(s)
    ensures var o := SupervisorDeleteOutcome(s, supervisors, uid, t);
            && Consistent(o.tables)
            && (o.response.status == 200 <==>
                  uid in supervisors && t in s.teams && s.teams[t].supervisor == Some(uid) && s.teams[t].members == map[])
            && (o.response.status == 200 ==> t !in o.tables.teams && s.teams[t].topic !in o.tables.topics)
            && (o.response.status != 200 ==> o.tables == s)
  {
    if t in s.teams {
      DeletionKeepsConsistent(s, t);
    }
  }

  // ---------------------------------------------------------------- RemoveTeamMemberView

  /** POST teams/<t>/remove/<sid>/ by `uid`, the team's owner or supervisor. */
  function RemoveMemberOutcome(s: Tables, students: map<UserId, StudentProfile>, uid: UserId, t: TeamId, sid: UserId): Outcome {
    if t !in s.teams then Refuse(s, 404, TeamNotFound)
    else if s.teams[t].owner != uid && s.teams[t].supervisor != Some(uid) then Refuse(s, 403, OnlyOwnerOrSupervisorRemoves)
    else if sid == uid then Refuse(s, 400, CannotRemoveSelf)
    else if sid !in students then Refuse(s, 404, StudentNotFound)
    else if sid !in s.teams[t].members then Refuse(s, 400, NotInThisTeam)
    else
      var w := Withdrawn(s, t, sid);
      Outcome(w, [Note(sid, RemovedFrom + TitleOf(w, t) + ClosingQuote)], Response(200, StudentRemoved))
  }

  method RemoveTeamMember(db: Database, layer: ChannelLayer, uid: UserId, t: TeamId, sid: UserId) returns (r: Response)
    requires db.NotificationsValid()
    modifies db`teams, db`topics, db`notifications, db`nextNotificationId, layer`queues
    ensures db.NotificationsValid()
    ensures var o := RemoveMemberOutcome(old(db.TeamTables()), db.students, uid, t, sid);
            && db.TeamTables() == o.tables && r == o.response
            && Delivered(db, layer, old(db.notifications), old(db.nextNotificationId), old(layer.queues), o.notes)
  {
    ghost var s0 := db.TeamTables();
    if t !in db.teams {
      return Response(404, TeamNotFound);
    }
    var team := db.teams[t];
    if team.owner != uid && team.supervisor != Some(uid) {
      return Response(403, OnlyOwnerOrSupervisorRemoves);
    }
    if sid == uid {
      return Response(400, CannotRemoveSelf);
    }
    if sid !in db.students {
      return Response(404, StudentNotFound);
    }
    if sid !in team.members {
      return Response(400, NotInThisTeam);
    }
    db.teams := db.teams[t := team.(members := team.members - {sid})];
    if team.topic in db.topics && db.topics[team.topic].createdByStudent == Some(sid) {
      db.topics := db.topics[team.topic := db.topics[team.topic].(createdByStudent := None)];
    }
    assert db.TeamTables() == RemoveMemberOutcome(s0, db.students, uid, t, sid).tables;
    var title := if team.topic in db.topics then db.topics[team.topic].title else "";
    Send(db, layer, Note(sid, RemovedFrom + title + ClosingQuote));
    r := Response(200, StudentRemoved);
  }

  lemma RemoveKeepsConsistent(s: Tables, students: map<UserId, StudentProfile>, uid: UserId, t: TeamId, sid: UserId)
    requires Consistent(s)
    ensures Consistent(RemoveMemberOutcome(s, students, uid, t, sid).tables)
  {
    if RemoveMemberOutcome(s, students, uid, t, sid).response.status == 200 {
      WithdrawnIsConsistent(s, t, sid);
    }
  }

  /** Removal takes exactly the named student out of the team, leaves every other team as it
      was, and tells the student. */
  lemma RemoveTakesOnlyThatStudent(s: Tables, students: map<UserId, StudentProfile>, uid: UserId, t: TeamId, sid: UserId)
    requires Formation(s.teams, s.joinRequests)
    ensures var o := RemoveMemberOutcome(s, students, uid, t, sid);
            && (o.response.status == 200 <==>
                  && t in s.teams && (s.teams[t].owner == uid || s.teams[t].supervisor == Some(uid))
                  && sid != uid && sid in students && sid in s.teams[t].members)
            && (o.response.status == 200 ==>
                  && o.tables.teams.Keys == s.teams.Keys
                  && o.tables.teams[t].members == s.teams[t].members - {sid}
                  && !InTeam(o.tables.teams, sid)
                  && (forall u :: u in s.teams && u != t ==> o.tables.teams[u] == s.teams[u])
                  && |o.notes| == 1 && o.notes[0].user == sid)
            && (o.response.status != 200 ==> o.tables == s && o.notes == [])
  {
    var o := RemoveMemberOutcome(s, students, uid, t, sid);
    if o.response.status == 200 {
      var w := Withdrawn(s, t, sid);
      assert o.tables == w;
      forall u | u in w.teams ensures sid !in w.teams[u].members {
        if u != t && sid in s.teams[u].members {
          TeamOfStudentIsUnique(s.teams, s.joinRequests, sid, u, t);
        }
      }
    }
  }
}

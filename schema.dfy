/** The database tables of the backend (users/models.py, profiles/models.py,
    topics/models.py, teams/models.py, chat/models.py, notifications/models.py)
    as the fields of one `Database` object. Rows are values; tables are maps
    from primary key to row, or sequences in insertion order where the code
    orders by creation time. */
module Schema {
  import opened Common

  type SkillId = nat
  type TopicId = nat
  type TeamId = nat
  type ChatId = nat

  /** The lockout fields read and written by the login guard. */
  datatype Lockout = Lockout(failedLoginAttempts: int, blockedUntil: Option<Time>, blockDuration: int, lastFailedLogin: Option<Time>)

  /** The values the guard writes on a successful login, and a new account's defaults. */
  const ClearLockout := Lockout(0, None, 5, None)

  /** `password` is None for an unusable password (`set_password(None)`); hashing is not modelled. */
  datatype User = User(
    email: string,
    password: Option<string>,
    role: Option<Role>,
    isProfileCompleted: bool,
    isActive: bool,
    isStaff: bool,
    isSuperuser: bool,
    lockout: Lockout)

  datatype StudentProfile = StudentProfile(
    firstName: Option<string>, lastName: Option<string>, specialization: Option<string>,
    gpa: Option<real>, skills: set<SkillId>)

  datatype SupervisorProfile = SupervisorProfile(
    firstName: Option<string>, lastName: Option<string>, degree: Option<string>, skills: set<SkillId>)

  datatype DeanOfficeProfile = DeanOfficeProfile(
    firstName: Option<string>, lastName: Option<string>, jobRole: Option<string>)

  const BlankStudent := StudentProfile(None, None, None, None, {})
  const BlankSupervisor := SupervisorProfile(None, None, None, {})
  const BlankDean := DeanOfficeProfile(None, None, None)

  datatype Topic = Topic(
    title: string, requiredSkills: set<SkillId>,
    createdByStudent: Option<UserId>, createdBySupervisor: Option<UserId>)

  /** The declared choices are pending/approved/rejected; the views also write "open" and "accepted". */
  datatype TeamStatus = Pending | Approved | Rejected | Open | Accepted

  /** `members` is the Membership table restricted to this team: student -> joined_at. */
  datatype Team = Team(
    topic: TopicId, owner: UserId, members: map<UserId, Time>,
    supervisor: Option<UserId>, status: TeamStatus)

  datatype RequestStatus = RequestPending | RequestAccepted | RequestRejected

  datatype JoinRequest = JoinRequest(student: UserId, team: TeamId, status: RequestStatus, createdAt: Time)

  datatype SupervisorRequest = SupervisorRequest(team: TeamId, supervisor: UserId, status: RequestStatus, createdAt: Time)

  datatype Notification = Notification(id: nat, user: UserId, message: string, isRead: bool)

  datatype Message = Message(id: nat, chat: ChatId, sender: UserId, content: string, timestamp: Time, isRead: bool)

  datatype UserStatus = UserStatus(isOnline: bool, lastSeen: Time)

  /** Membership's unique_together ('student', 'team') is structural; JoinRequest's is this. */
  ghost predicate UniqueJoinPairs(jr: map<nat, JoinRequest>) {
    forall i, j :: i in jr && j in jr && jr[i].student == jr[j].student && jr[i].team == jr[j].team ==> i == j
  }

  /** SupervisorRequest's unique_together ('team', 'supervisor'). */
  ghost predicate UniqueSupervisorPairs(sr: map<nat, SupervisorRequest>) {
    forall i, j :: i in sr && j in sr && sr[i].team == sr[j].team && sr[i].supervisor == sr[j].supervisor ==> i == j
  }

  /** `email = models.EmailField(unique=True)`. */
  ghost predicate UniqueEmails(users: map<UserId, User>) {
    forall a, b :: a in users && b in users && users[a].email == users[b].email ==> a == b
  }

  ghost predicate UniqueNotificationIds(ns: seq<Notification>) {
    forall i, j :: 0 <= i < j < |ns| ==> ns[i].id != ns[j].id
  }

  ghost predicate UniqueMessageIds(ms: seq<Message>) {
    forall i, j :: 0 <= i < j < |ms| ==> ms[i].id != ms[j].id
  }

  /** `Team.thesis_topic` is a OneToOneField: no two teams share a topic. */
  ghost predicate UniqueTeamTopics(teams: map<TeamId, Team>) {
    forall a, b :: a in teams && b in teams && teams[a].topic == teams[b].topic ==> a == b
  }

  /** No team ever holds more than four members. */
  ghost predicate WithinCapacity(teams: map<TeamId, Team>) {
    forall t :: t in teams ==> |teams[t].members| <= 4
  }

  ghost predicate TopicsHandedOut(topics: map<TopicId, Topic>, next: nat) {
    forall t :: t in topics ==> t < next
  }

  ghost predicate TeamsWellFormed(teams: map<TeamId, Team>, topics: map<TopicId, Topic>, next: nat) {
    && (forall t :: t in teams ==> t < next && teams[t].topic in topics)
    && UniqueTeamTopics(teams)
    && WithinCapacity(teams)
  }

  ghost predicate JoinRequestsWellFormed(jrs: map<nat, JoinRequest>, teams: map<TeamId, Team>, next: nat) {
    && (forall r :: r in jrs ==> r < next && jrs[r].team in teams)
    && UniqueJoinPairs(jrs)
  }

  ghost predicate SupervisorRequestsWellFormed(srs: map<nat, SupervisorRequest>, teams: map<TeamId, Team>, next: nat) {
    && (forall r :: r in srs ==> r < next && srs[r].team in teams)
    && UniqueSupervisorPairs(srs)
  }

  /** The team-formation tables (topics, teams with their memberships, join and supervisor
      requests, likes) and their id sequences. */
  datatype Tables = Tables(
    topics: map<TopicId, Topic>,
    teams: map<TeamId, Team>,
    joinRequests: map<nat, JoinRequest>,
    supervisorRequests: map<nat, SupervisorRequest>,
    likes: set<(UserId, TeamId)>,
    nextTopicId: nat,
    nextTeamId: nat,
    nextJoinRequestId: nat,
    nextSupervisorRequestId: nat)

  /** Ids handed out, every team on an existing topic of its own, every request on an
      existing team, unique request pairs, at most four members per team. */
  ghost predicate TablesValid(s: Tables) {
    && TopicsHandedOut(s.topics, s.nextTopicId)
    && TeamsWellFormed(s.teams, s.topics, s.nextTeamId)
    && JoinRequestsWellFormed(s.joinRequests, s.teams, s.nextJoinRequestId)
    && SupervisorRequestsWellFormed(s.supervisorRequests, s.teams, s.nextSupervisorRequestId)
  }

  class Database {
    var users: map<UserId, User>
    var students: map<UserId, StudentProfile>
    var supervisors: map<UserId, SupervisorProfile>
    var deans: map<UserId, DeanOfficeProfile>
    var skillNames: map<SkillId, string>
    var topics: map<TopicId, Topic>
    var teams: map<TeamId, Team>
    var joinRequests: map<nat, JoinRequest>
    var supervisorRequests: map<nat, SupervisorRequest>
    var likes: set<(UserId, TeamId)>
    var notifications: seq<Notification>
    var chats: map<ChatId, set<UserId>>
    var messages: seq<Message>
    var statuses: map<UserId, UserStatus>
    /** The next value of each table's auto-increment sequence. */
    var nextUserId: nat
    var nextTopicId: nat
    var nextTeamId: nat
    var nextJoinRequestId: nat
    var nextSupervisorRequestId: nat
    var nextNotificationId: nat
    var nextChatId: nat
    var nextMessageId: nat

    /** Unique emails; every user id was handed out by the id sequence. */
    ghost predicate UsersValid()
      reads this`users, this`nextUserId
    {
      && UniqueEmails(users)
      && (forall u :: u in users ==> u < nextUserId)
    }

    /** The team-formation tables as one value. */
    function TeamTables(): Tables
      reads this`topics, this`teams, this`joinRequests, this`supervisorRequests, this`likes
      reads this`nextTopicId, this`nextTeamId, this`nextJoinRequestId, this`nextSupervisorRequestId
    {
      Tables(topics, teams, joinRequests, supervisorRequests, likes,
             nextTopicId, nextTeamId, nextJoinRequestId, nextSupervisorRequestId)
    }

    ghost predicate TeamsValid()
      reads this`topics, this`teams, this`joinRequests, this`supervisorRequests, this`likes
      reads this`nextTopicId, this`nextTeamId, this`nextJoinRequestId, this`nextSupervisorRequestId
    {
      TablesValid(TeamTables())
    }

    /** Notification ids handed out and unique. */
    ghost predicate NotificationsValid()
      reads this`notifications, this`nextNotificationId
    {
      && (forall i :: 0 <= i < |notifications| ==> notifications[i].id < nextNotificationId)
      && UniqueNotificationIds(notifications)
    }

    /** Chat and message ids handed out and unique; every message in an existing chat. */
    ghost predicate ChatsValid()
      reads this`chats, this`messages, this`nextChatId, this`nextMessageId
    {
      && (forall c :: c in chats ==> c < nextChatId)
      && (forall i :: 0 <= i < |messages| ==> messages[i].id < nextMessageId && messages[i].chat in chats)
      && UniqueMessageIds(messages)
    }

    ghost predicate Valid()
      reads this
    {
      UsersValid() && TeamsValid() && NotificationsValid() && ChatsValid()
    }

    constructor ()
      ensures Valid()
      ensures users == map[] && students == map[] && supervisors == map[] && deans == map[]
      ensures topics == map[] && teams == map[] && joinRequests == map[] && supervisorRequests == map[]
      ensures likes == {} && notifications == [] && chats == map[] && messages == [] && statuses == map[]
    {
      users, students, supervisors, deans, skillNames := map[], map[], map[], map[], map[];
      topics, teams, joinRequests, supervisorRequests, likes := map[], map[], map[], map[], {};
      notifications, chats, messages, statuses := [], map[], [], map[];
      nextUserId, nextTopicId, nextTeamId, nextJoinRequestId := 1, 1, 1, 1;
      nextSupervisorRequestId, nextNotificationId, nextChatId, nextMessageId := 1, 1, 1, 1;
    }

    /** INSERT of a new user row under the next id; the email must be free (unique constraint). */
    method InsertUser(u: User) returns (uid: UserId)
      requires UsersValid()
      requires forall v :: v in users ==> users[v].email != u.email
      modifies this`users, this`nextUserId
      ensures uid == old(nextUserId) && uid !in old(users)
      ensures users == old(users)[uid := u]
      ensures nextUserId == old(nextUserId) + 1
      ensures UsersValid()
    {
      uid := nextUserId;
      users := users[uid := u];
      nextUserId := nextUserId + 1;
    }

    /** `user.save()` on an existing row whose email is unchanged. */
    method SaveUser(uid: UserId, u: User)
      requires uid in users && users[uid].email == u.email
      modifies this`users
      ensures users == old(users)[uid := u]
      ensures old(UsersValid()) ==> UsersValid()
    {
      users := users[uid := u];
    }
  }
}

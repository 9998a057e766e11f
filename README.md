# Thesis-matching backend and client: a Dafny model

This project models the core of a thesis-matching system. A Django backend lets students form
teams around thesis topics, ask supervisors to take them on, chat, and receive notifications.
A Vue client keeps the signed-in session, chats, likes and notification counter in stores.

The model covers the following parts:

- **Login guard.** The JWT login serializer's lockout and per-address limiter (`LoginGuard`,
  over the `KeyValueCache` class). It also covers account creation, registration with role
  derivation, and password checks (`Accounts`), plus the client-address helper (`RequestIp`).
- **Team formation.**
  - The team model's skill coverage, submission to a supervisor, approval and rejection, and
    deletion cascade (`TeamModels`).
  - Every team view that changes state: join, cancel, accept and reject a join request; create,
    accept, reject and cancel a supervisor request; like toggle; leave; supervisor delete;
    member removal (`TeamViews`).
  - Topic creation with its auto-created team (`Topics`).
- **Profiles.** Completion predicates, the skill caps, the one-profile-per-user guard, the
  role-profile hook and the serializers' partial updates (`Profiles`).
- **Presence, fan-out and inbox.**
  - The channel layer: group name to a set of connection ids, one delivery queue per connection
    (`ChannelLayer`).
  - `send_notification` (`Notify`).
  - The notification views and consumer (`Inbox`).
  - The chat views and consumer (`Chat`).
- **Client stores.**
  - The auth store (`AuthStore`) and the navigation guard (`RouterGuard`).
  - Both copies of the chat store (`ChatStore.Store` for src/store/chat.ts,
    `ChatStore.UntypedStore` for diploMatch/src/store/chat.ts).
  - The like store (`LikeStore`). diploMatch/src/store/likes.ts is the same code and is
    covered by the same class.
  - The notification counter (`NotificationStore`).
  - localStorage (`Browser`).

All database tables live in one `Schema.Database` object whose fields are maps keyed by primary
key. Each view is specified by a pure outcome function: the new tables, the notifications to
send, and the HTTP response. The imperative method is proved to produce exactly that outcome.
Lemmas then prove what each outcome promises: guards, one pending request per student, one team
per student, one pending supervisor request per team, and table integrity. Every notification
is persisted and then published to the `user_{id}` group. `Notify.Delivered` ties the new
notification rows and the new connection queues to the sequence of notes a view sends.
Timestamps are integer seconds. API replies, the current time and the client address are
parameters.

## Model

| member | source | states |
|---|---|---|
| Common.NatToString | teams/views.py:25 | the decimal rendering of an id is non-empty and all digits |
| Common.ParseNatToString | teams/views.py:25 | parsing the rendering of an id gives the id back |
| Common.NatToStringInjective | teams/views.py:25 | two ids with the same rendering are equal |
| Common.GroupsDistinct | chat/consumers.py:19 | `user_{id}` and `chat_{id}` groups never collide, and each naming is injective |
| Common.BeforeFirst | users/serializers.py:129 | `split(sep)[0]` is the longest prefix without `sep`; the whole string when `sep` is absent |
| Common.Trim | users/serializers.py:110-111 | `strip()`: the result has no whitespace at either end and is no longer than the input |
| Common.TrimIsMiddle | users/serializers.py:110-111 | the result is the middle of the input, with only whitespace cut from each end |
| Common.TrimOfPadded | users/serializers.py:110-111 | stripping a stripped text padded with whitespace on both sides gives that text back, so the stripped core is unique |
| Common.TrimIdempotent | users/serializers.py:110-111 | stripping twice is stripping once |
| Common.MinOf | teams/views.py:421-422 | the smallest key of a non-empty set, standing for the single row `get()` returns |
| Common.Ascending | teams/views.py:247-248 | a set's keys listed once each in increasing order, the order unordered querysets are iterated in |
| KeyValueCache.Lookup | users/serializers.py:38 | an entry is visible exactly while its expiry lies in the future |
| KeyValueCache.Cache.constructor | users/serializers.py:38 | the cache starts empty |
| KeyValueCache.Cache.Get | users/serializers.py:38 | `cache.get` returns the live entry or nothing |
| KeyValueCache.Cache.Set | users/serializers.py:69 | `cache.set` stores the value with expiry now + timeout and touches no other key |
| KeyValueCache.Cache.Delete | users/serializers.py:97-98 | `cache.delete` removes exactly that key |
| RequestIp.ClientIp | users/signals.py:17-19 | a non-empty forwarded header gives its text before the first comma, never containing a comma; otherwise REMOTE_ADDR |
| RequestIp.FirstHopWins | users/signals.py:19 | for "client,proxies" the client part is returned |
| RequestIp.EmptyHeaderFallsBack | users/signals.py:19 | a missing or empty header yields REMOTE_ADDR |
| Accounts.Lower | users/models.py:10 | lower-casing keeps the length and maps each character to its lower case (A-Z, the Latin-1 and the Cyrillic capitals) |
| Accounts.LastIndex | users/models.py:10 | the index of the last occurrence of a character, or none when absent |
| Accounts.NormalizeEmail | users/models.py:10 | normalising never lengthens an email |
| Accounts.NormalizeWithoutAt | users/models.py:10 | an email without '@' is kept exactly as given, surrounding whitespace included |
| Accounts.NormalizeJoin | users/models.py:10 | an address padded with whitespace, split at its last '@', normalises to the stripped local part, '@' and the lowered domain |
| Accounts.NormalFormAt | users/models.py:10 | the normal form of any address whose stripped text holds an '@' is the stripped text up to its last '@', kept verbatim, followed by the lowered domain |
| Accounts.NormalFormIsNormal | users/models.py:10 | an address already in normal form (stripped local part, lowered domain) is left alone by normalising |
| Accounts.NormalizeEmailIdempotent | users/models.py:10 | normalising twice equals normalising once, and the stripped local part up to the last '@' is kept verbatim |
| Accounts.ExampleLower | users/models.py:10 | the domain "ÜNI.kz" lowers to "üni.kz", which lowering keeps, so the two spellings of the domain name one account |
| Accounts.CreateUser | users/models.py:7-14 | an empty email is refused; a taken normalised email is an integrity error; otherwise exactly one user row is added with a fresh id and the role's blank profile is created if absent; on error nothing changes |
| Accounts.SuperuserDefaults | users/models.py:16-19 | staff and superuser default to true, and values the caller supplies win |
| Accounts.CreateSuperuser | users/models.py:16-19 | succeeds under the same conditions as create_user and stores the defaulted flags |
| Accounts.RoleFromLocalPart | users/serializers.py:128-137 | the role depends only on the local part: '-' gives dean office, else '.' gives supervisor, else student |
| Accounts.DeanExample | users/serializers.py:128-137 | a hyphenated local part with a dot still gives dean office |
| Accounts.StudentExample | users/serializers.py:128-137 | a hyphen in the domain does not count |
| Accounts.PasswordsMatch | users/serializers.py:117-120 | registration validation passes iff the two passwords are equal |
| Accounts.ValidateRegistration | users/serializers.py:109-120 | fields are stripped; a blank email, then a taken email, then a blank password field, then a mismatch is the reported refusal; accepted iff none applies, giving the stripped email and password |
| Accounts.Register | users/serializers.py:109-149 | every refusal of validation is the reply with nothing written; success iff validation passes and the normalised email is free, storing the stripped email normalised, the stripped password, the role derived from the stripped email and its profile |
| Accounts.EmailCheckedBeforePasswords | users/serializers.py:109-120 | a taken email is reported whatever the passwords, including unequal ones |
| Accounts.ValidateReset | users/serializers.py:167-174 | a reset is accepted iff the stripped password has 6 to 100 characters and equals the stripped confirmation, and returns the stripped password; a blank one is refused as blank |
| Accounts.ResetMeasuresStripped | users/serializers.py:168 | " abcde" is refused as shorter than 6 characters |
| Accounts.ResetComparesStripped | users/serializers.py:167-174 | "secret1 " and "secret1" match, and "secret1" is kept |
| Profiles.IncompleteProfiles | profiles/models.py:38-42 | fresh profiles of every role are incomplete; a student with gpa 0 or no skills is incomplete |
| Profiles.CleanSkills | profiles/models.py:33-36 | `clean` fails iff the row is saved and holds more skills than the cap |
| Profiles.SkillSet | profiles/serializers.py:27-28 | the skill set built from a list has no more elements than the list |
| Profiles.SkillSetMembers | profiles/serializers.py:27-28 | the skill set holds exactly the listed ids |
| Profiles.FirstUnknown | profiles/serializers.py:9 | reports a listed id missing from the skill table, or none iff every id is known |
| Profiles.ValidateSkillIds | profiles/serializers.py:17-20 | accepted iff every id is known and the list is within the cap; the result is the set of listed ids |
| Profiles.AcceptedSkillsPassClean | profiles/serializers.py:17-20 | skills the serializer accepts always pass the model's `clean` cap, for students and supervisors |
| Profiles.DuplicateGuardNeverFires | profiles/models.py:44-47 | as written, saving over an existing profile of a saved user never raises |
| Profiles.SaveAsWrittenOverwrites | profiles/models.py:44-47 | as written, saving a new student object for a user with a profile replaces that profile's fields and keeps only its skills, so a stored profile is lost |
| Profiles.SaveKeepsStoredProfiles | profiles/models.py:44-47 | with the intended guard a save never changes a stored profile, and where the kind was missing it stores exactly the object's fields with no skills |
| Profiles.StoredProfileSurvives | profiles/models.py:44-47 | over any run of such saves every stored profile stays, unchanged |
| Profiles.Place | profiles/models.py:47 | `super().save()` writes the object's fields under the user's key and keeps the skills already linked |
| Profiles.SaveProfileObjectAsWritten | profiles/models.py:44-48 | the guard as written decides the reply; otherwise the row is written, completion is recomputed on it and the role hook runs |
| Profiles.SaveProfileObject | profiles/models.py:44-48 | refused with "A profile for this user already exists." and nothing changed iff a profile of that kind is stored; otherwise the same writes as written |
| Profiles.EnsureRoleProfile | users/models.py:40-48 | the hook creates only the role's blank profile, only when it is absent; afterwards the user's role profile exists; a user without a role gets none |
| Profiles.HookIsIdempotent | users/models.py:43-48 | after the hook the role profile is present, so a later save creates nothing |
| Profiles.SetCompletion | profiles/models.py:38-42 | the user's completion flag is set to the profile's completeness, and only the role profile may be created |
| Profiles.CompletionOverwrites | profiles/models.py:41-42 | recomputing completion twice leaves only the second value |
| Profiles.SetCompletionOfProfiled | profiles/models.py:41-42 | with the profile present, only the user's completion flag changes |
| Profiles.PatchWritesOnlySupplied | profiles/serializers.py:24-25 | an update writes exactly the supplied attributes, keeps the skills, and applying it twice equals applying it once |
| Profiles.UpdateStudentProfile | profiles/serializers.py:22-30 | invalid skill ids are refused with nothing written; otherwise the supplied fields are written, skills replaced only when supplied and capped at 5, and completion recomputed |
| Profiles.UpdateSupervisorProfile | profiles/serializers.py:56-64 | the same for supervisors with a cap of 10 |
| Profiles.UpdateDeanProfile | profiles/serializers.py:82-87 | a job role outside the choices is refused; otherwise the supplied fields are written and completion recomputed |
| LoginGuard.KeysDistinct | users/serializers.py:34-35 | the attempt-counter key and the block-flag key never collide |
| LoginGuard.RemainingMinutes | users/serializers.py:52 | the remaining minutes lie in 0..1439 and, within a day, are the floor of the seconds over 60 |
| LoginGuard.Failure | users/serializers.py:62-94 | a wrong password changes only the account's four lockout fields |
| LoginGuard.Success | users/serializers.py:96-104 | a correct password resets the lockout fields to their defaults |
| LoginGuard.CheckAccount | users/serializers.py:50-106 | the account check changes only the lockout fields |
| LoginGuard.Validate | users/serializers.py:26-106 | an account is reported iff one was found, and only its lockout fields change |
| LoginGuard.IpFlagRejectsFirst | users/serializers.py:37-39 | with the address flagged, the call rejects and writes nothing, before any account lookup |
| LoginGuard.UnknownEmailCountsOnlyTheIp | users/serializers.py:42-48 | an unknown email answers "Invalid credentials", bumps only the address counter and never raises the flag |
| LoginGuard.ActiveBlockWritesNothing | users/serializers.py:50-53 | a blocked account is rejected with the floor of the remaining minutes and nothing is written, whatever the password |
| LoginGuard.StaleStreakIsForgotten | users/serializers.py:55-59 | after more than ten idle minutes the streak restarts: one failure leaves two attempts, and the block duration returns to 5 |
| LoginGuard.DebouncedFailureChangesNothing | users/serializers.py:62-65 | a failure within a second of the last one changes neither the account nor the cache |
| LoginGuard.IpCapRaisesFlag | users/serializers.py:67-73 | a fifth failure from one address raises the flag for 15 minutes before the account count moves |
| LoginGuard.ThirdFailureBlocks | users/serializers.py:76-90 | the third counted failure blocks for the current duration, raises the next duration by 5 up to 30, and clears the count |
| LoginGuard.SuccessClearsEverything | users/serializers.py:96-104 | a correct password clears the four account fields and deletes both address keys; an inactive account is then refused |
| LoginGuard.ValidateKeepsBounds | users/serializers.py:76-94 | stored failures stay in 0..2 and the block duration in 5..30; reported attempts left are 1..2 and blocks last 5 to 30 minutes |
| LoginGuard.FailureKeepsBounds | users/serializers.py:76-94 | the same bounds for the wrong-password step alone |
| LoginGuard.EscalationScenario | users/serializers.py:62-94 | three spaced wrong passwords give 2 left, 1 left, then a 5-minute block with the next duration 10 |
| LoginGuard.AccountByEmail | users/serializers.py:42-44 | the user row with that email, or none when no row has it |
| LoginGuard.ValidateLogin | users/serializers.py:26-106 | the stored account and the cache become exactly what `Validate` prescribes, and the lockout bounds are kept |
| LoginGuard.CheckAccountStep | users/serializers.py:50-106 | the account step writes exactly the outcome of `CheckAccount` |
| LoginGuard.RecordSuccess | users/serializers.py:97-104 | the success step writes exactly the outcome of `Success` |
| LoginGuard.RecordFailure | users/serializers.py:62-94 | the failure step writes exactly the outcome of `Failure` |
| LoginGuard.UnknownEmailFromQuietAddressFails | users/serializers.py:46-47 | as written, an unknown email from an address without a live counter fails to increment a missing key |
| LoginGuard.BumpIpAlwaysCounts | users/serializers.py:46-47 | the corrected bump always leaves the counter one higher, and agrees with the code wherever the code succeeds |
| ChannelLayer.Fanout | teams/views.py:24-27 | one group send appends the event to every subscriber's queue and to no other |
| ChannelLayer.SendAllDeliversInOrder | teams/views.py:24-27 | a connection receives, in order, exactly the events sent to the groups it is in |
| ChannelLayer.SendAllIsolation | teams/views.py:24-27 | a connection in none of the target groups receives nothing |
| ChannelLayer.SendAllSnoc | teams/views.py:24-27 | sending one more event is one more fan-out |
| ChannelLayer.SendAllAppend | teams/views.py:24-27 | two runs of sends compose |
| ChannelLayer.ChannelLayer.constructor | notifications/consumers.py:17 | the layer starts with no groups and empty queues |
| ChannelLayer.ChannelLayer.GroupAdd | chat/consumers.py:22 | `group_add` adds the connection to that group only |
| ChannelLayer.ChannelLayer.GroupDiscard | chat/consumers.py:32 | `group_discard` removes the connection from that group only |
| ChannelLayer.ChannelLayer.GroupSend | teams/views.py:24-27 | `group_send` is one fan-out to the group's current members |
| ChannelLayer.SubscriptionDecidesDelivery | notifications/consumers.py:17-25 | after subscribing a connection receives the next event; after unsubscribing it does not |
| Notify.NoteReachesOnlyItsUser | teams/views.py:24-27 | a notification reaches exactly the connections subscribed to its user's group |
| Notify.RowsKeepIdsUnique | teams/views.py:20 | new notification rows keep ids unique and below the counter |
| Notify.NothingDelivered | teams/views.py:18-27 | sending no notes leaves rows and queues as they were |
| Notify.DeliveredAppend | teams/views.py:18-27 | delivering two runs of notes one after the other delivers their concatenation |
| Notify.Send | teams/views.py:18-27 | one unread row is stored with a fresh id, then the message is published to `user_{id}` |
| Notify.SendEach | teams/views.py:248-252 | the notes of a loop are stored and published in order |
| Notify.SendNext | teams/views.py:248-252 | one loop iteration extends the delivered prefix by one note |
| Inbox.Own | notifications/views.py:14 | the list holds only the requester's rows |
| Inbox.Reversed | notifications/views.py:14 | newest first: position i holds the i-th row from the end |
| Inbox.UnreadCountZeroIff | notifications/views.py:24-25 | the unread count is zero iff every row of the user is read |
| Inbox.UnreadAtMostOwn | notifications/views.py:24-25 | the unread count never exceeds the user's number of rows |
| Inbox.NewNoteIsUnread | teams/views.py:20 | a new notification raises its user's unread count by one and no one else's |
| Inbox.ReadAllPrefix | notifications/views.py:31-33 | marking all read commutes with dropping the last row |
| Inbox.ReadAllTouchesOnlyOwn | notifications/views.py:31-33 | only the `is_read` flags of the user's rows change, and all of them become true |
| Inbox.ReadAllClearsCount | notifications/views.py:31-33 | afterwards the unread count is 0, and doing it again changes nothing |
| Inbox.ReadAllKeepsIds | notifications/views.py:15 | ids stay unique and below the counter |
| Inbox.OwnAfterReadAll | notifications/views.py:15 | the user's rows after marking are the same rows, read |
| Inbox.ListNotifications | notifications/views.py:13-17 | listing marks the user's rows read and returns them newest first |
| Inbox.ListShowsOwnNewestFirst | notifications/views.py:13-17 | the listing has one entry per own row, newest first, each read and the user's |
| Inbox.MarkAllAsRead | notifications/views.py:31-33 | the user's unread count becomes 0 and the reply is 200 |
| Inbox.Without | notifications/views.py:41-42 | deletion never lengthens the table |
| Inbox.WithoutKeepsOthers | notifications/views.py:41-42 | the rows left are exactly those whose key differs |
| Inbox.WithoutRemovesOne | notifications/views.py:41-42 | with unique keys exactly one row goes |
| Inbox.WithoutKeepsAll | notifications/views.py:41-42 | deleting an absent key changes nothing |
| Inbox.DeleteNotification | notifications/views.py:40-43 | the user's own row is deleted with 204; anybody else's or a missing one gives 404 and deletes nothing |
| Inbox.DeleteRemovesExactlyOne | notifications/views.py:40-43 | a delete removes one row and keeps the ids valid |
| Inbox.NotificationConsumer.constructor | notifications/consumers.py:14 | a consumer starts neither accepted nor closed, with nothing sent |
| Inbox.NotificationConsumer.Connect | notifications/consumers.py:12-20 | an authenticated connection joins `user_{id}` and is accepted; an anonymous one is closed and subscribes nowhere |
| Inbox.NotificationConsumer.Disconnect | notifications/consumers.py:22-25 | the connection leaves its user group |
| Inbox.NotificationConsumer.SendNotificationHandler | notifications/consumers.py:31-34 | the event is forwarded as exactly one `{message}` frame |
| Inbox.ConnectedUserReceives | notifications/consumers.py:14-18 | once connected, a user receives every notification sent to them |
| Chat.ReportedStatus | chat/views.py:55-69 | a status is reported iff the user has a status record |
| Chat.PresenceIgnoresStoredFlag | chat/views.py:60-67 | `is_online` is reported iff the last sighting is at most 60 s old, whatever the stored flag |
| Chat.SetUserOnline | chat/consumers.py:80-86 | the record is created if absent and set online with last_seen = now |
| Chat.SetUserOffline | chat/consumers.py:88-97 | an existing record is set offline with last_seen = now; no record is ever created |
| Chat.LeavingShowsOnlineForAMinute | chat/views.py:64 | after disconnect the user still shows online for 60 s |
| Chat.Candidates | chat/views.py:86 | the chats both users are in, each once, in ascending key order |
| Chat.FirstPairIsFirst | chat/views.py:87-90 | the loop returns the first candidate with exactly two participants, or none when there is none |
| Chat.FindPair | chat/views.py:87-90 | the loop computes that first two-person candidate |
| Chat.StartOrGetChat | chat/views.py:73-98 | a missing user id gives 400 and an unknown user 404; an existing two-person chat of the pair is returned with 200; otherwise one chat of exactly the two is created with 201 |
| Chat.FoundChatIsTheirs | chat/views.py:86-90 | a returned chat has exactly the two users as participants |
| Chat.OnlyPairIsFound | chat/views.py:87-90 | when one candidate has two participants, it is the one found |
| Chat.SecondCallReturnsSameChat | chat/views.py:93-98 | right after a chat is created, the same request finds that chat |
| Chat.InChat | chat/views.py:37 | the listed messages all belong to the chat |
| Chat.InChatComplete | chat/views.py:37 | every message of the chat is listed |
| Chat.ListMessages | chat/views.py:34-37 | participants get the chat's messages; anybody else gets 404 and nothing |
| Chat.StoreMessage | chat/consumers.py:99-105 | exactly one message with a fresh id is appended |
| Chat.PostMessage | chat/views.py:39-41 | missing content, or content that is blank once stripped, gives 400 and a non-participant 404, with nothing stored; otherwise one message by the requester with the stripped content is stored |
| Chat.PostedContentIsStripped | chat/models.py:16 | stripped content is empty iff the text is all whitespace, is itself stripped, and ignores surrounding whitespace |
| Chat.PostedMessageIsListed | chat/views.py:35-41 | a posted message appears in its chat's listing |
| Chat.MarkMessageRead | chat/views.py:47-51 | a participant's message is marked read with 200; otherwise 404 and nothing changes |
| Chat.MarkReadTouchesOnlyThatMessage | chat/views.py:48-50 | only that message's flag changes, and marking again changes nothing |
| Chat.ChatConsumer.constructor | chat/consumers.py:17-19 | a consumer starts neither accepted nor closed, with nothing sent |
| Chat.ChatConsumer.Connect | chat/consumers.py:16-27 | an authenticated connection joins `chat_{id}` and is marked online; an anonymous one is closed, subscribes nowhere, and no status changes |
| Chat.ChatConsumer.Disconnect | chat/consumers.py:29-32 | the connection leaves the group and the user is marked offline |
| Chat.ChatConsumer.Receive | chat/consumers.py:34-64 | "ping" only refreshes presence; "typing" broadcasts the email and stores nothing; a non-empty message is stored once and then broadcast with its timestamp and chat id; an empty one does nothing |
| Chat.ChatConsumer.ChatMessageHandler | chat/consumers.py:66-72 | the event is forwarded as one chat frame with the same fields |
| Chat.ChatConsumer.UserTypingHandler | chat/consumers.py:74-78 | the event is forwarded as one typing frame |
| Chat.OutsiderReachesChat | chat/consumers.py:21-23 | any authenticated connection may join a chat's group and then receives its broadcasts, participant or not |
| TeamModels.TeamOfStudentIsUnique | teams/models.py:11-12 | under the formation invariant a student's team is determined |
| TeamModels.NamesAtMostSkills | teams/models.py:32-36 | a set of skills has no more names than skills |
| TeamModels.CoverageNeedsFourRequiredSkills | teams/models.py:32-36 | covered teams have a topic with at least four required skills and members with at least four skill names |
| TeamModels.CoverageGrowsWithMembers | teams/models.py:32-36 | adding members never loses coverage |
| TeamModels.ApplyToSupervisor | teams/models.py:38-43 | the status becomes pending iff the team covers the topic; otherwise the error is raised and the team is unchanged |
| TeamModels.ApprovedBy | teams/models.py:51-54 | approval keeps the members and topic |
| TeamModels.ApproveTeamAsWritten | teams/models.py:49-50 | as written, approval always raises |
| TeamModels.ApprovalAlwaysRaisesAsWritten | teams/models.py:49-50 | a pending team with a supervisor far below the limit still cannot be approved |
| TeamModels.ApproveTeam | teams/models.py:45-54 | approval succeeds iff the team is pending and the supervisor has fewer than 10 teams; it then sets supervisor, owner and status together; on error nothing changes |
| TeamModels.ApprovalKeepsSupervisorLimit | teams/models.py:49-54 | no supervisor ends with more than 10 teams |
| TeamModels.RejectTeam | teams/models.py:56-59 | the status becomes rejected from any state and nothing else changes |
| TeamModels.ToggleLike | teams/models.py:105-106 | toggling flips exactly that (user, team) like |
| TeamModels.ToggleTwiceRestores | teams/views.py:393-397 | toggling twice restores the like set |
| TeamModels.Deleted | teams/views.py:483-485 | the team is gone after deletion |
| TeamModels.DeletionKeepsTeams | teams/views.py:483-485 | team and topic integrity survive the deletion |
| TeamModels.DeletionKeepsJoinRequests | teams/views.py:483-485 | join-request integrity survives the cascade |
| TeamModels.DeletionKeepsSupervisorRequests | teams/views.py:483-485 | supervisor-request integrity survives the cascade |
| TeamModels.DeletionKeepsFormation | teams/views.py:483-485 | the formation invariant survives the deletion |
| TeamModels.DeletionKeepsConsistent | teams/views.py:483-485 | deleting a team and its topic keeps the tables consistent |
| TeamModels.DeleteTeamAndTopic | teams/views.py:483-485 | the tables become the deleted tables |
| TeamModels.Earliest | teams/views.py:448 | the member who joined first, or none iff the team is empty |
| TeamViews.JoinTeamGuards | teams/views.py:155-177 | a join succeeds iff the requester is a teamless student without a pending request, the team exists and the pair is new; refusals change nothing and notify no one |
| TeamViews.JoinTeam | teams/views.py:155-186 | the tables, reply and notifications are exactly the join outcome |
| TeamViews.JoinLeavesOnePendingRequest | teams/views.py:164-186 | after a join the student has exactly one pending request, to that team, and the owner is told |
| TeamViews.InsertKeepsJoinRequests | teams/views.py:180 | inserting a new pair keeps join-request integrity |
| TeamViews.InsertKeepsFormation | teams/views.py:180 | inserting a request for a teamless student without one keeps the formation invariant |
| TeamViews.JoinKeepsConsistent | teams/views.py:164-186 | a join keeps the tables consistent |
| TeamViews.CancelJoinGuards | teams/views.py:137-149 | cancel succeeds iff it is the student's own pending request; otherwise nothing is deleted; nobody is notified |
| TeamViews.CancelJoinRequest | teams/views.py:137-149 | the tables and reply are exactly the cancel outcome |
| TeamViews.CancelKeepsConsistent | teams/views.py:146 | cancelling keeps the tables consistent |
| TeamViews.CancelFreesStudent | teams/views.py:146 | after a cancel the student has no pending request |
| TeamViews.AutoRejections | teams/views.py:247-252 | one notice per dropped request, to its student, in iteration order |
| TeamViews.AcceptJoinGuards | teams/views.py:227-234 | accept succeeds iff the requester owns the team, it has fewer than 4 members and exactly one pending request of that student exists; refusals change nothing |
| TeamViews.AcceptJoinRequest | teams/views.py:227-258 | the tables, reply and notifications are exactly the accept outcome |
| TeamViews.AdmitAndNotify | teams/views.py:235-253 | admission writes the admitted tables and sends the acceptance and auto-rejection notices |
| TeamViews.MarkKeepsJoinRequests | teams/views.py:236-237 | changing a request's status keeps join-request integrity |
| TeamViews.DroppingKeepsJoinRequests | teams/views.py:253 | deleting requests keeps join-request integrity |
| TeamViews.DroppingKeepsFormation | teams/views.py:253 | deleting requests keeps the formation invariant |
| TeamViews.AddMemberKeepsTeams | teams/views.py:232-235 | adding a member to a team under 4 keeps team integrity |
| TeamViews.AcceptedStudentWasTeamless | teams/views.py:234-235 | the admitted student is in no team and has no other pending request |
| TeamViews.AdmitKeepsPendingTeamless | teams/views.py:235-237 | after admission every pending applicant is still teamless |
| TeamViews.AdmitKeepsOneTeam | teams/views.py:235 | admitting a teamless student keeps one team per student |
| TeamViews.AdmittedIsConsistent | teams/views.py:235-237 | admission keeps the tables consistent |
| TeamViews.AcceptKeepsConsistent | teams/views.py:232-253 | an accept keeps the tables consistent |
| TeamViews.AdmitGrowsTeam | teams/views.py:235 | the team gains exactly the admitted student |
| TeamViews.AdmitClearsFullTeam | teams/views.py:246-253 | when the team reaches 4, no pending request to it remains |
| TeamViews.AutoRejectionsCover | teams/views.py:247-252 | every dropped request's student receives a notice |
| TeamViews.AdmitAnnouncesDropped | teams/views.py:247-252 | each deleted request's student is told it was rejected automatically |
| TeamViews.AcceptFillsAndClears | teams/views.py:232-253 | a successful accept adds the student; reaching 4 clears every pending request to the team and notifies each dropped applicant |
| TeamViews.RejectJoinGuards | teams/views.py:265-273 | reject succeeds iff the owner rejects the single pending request; it changes no team and deletes no row |
| TeamViews.RejectJoinRequest | teams/views.py:265-280 | the tables, reply and notifications are exactly the reject outcome |
| TeamViews.CloseKeepsFormation | teams/views.py:272-273 | closing a request keeps the formation invariant |
| TeamViews.RejectKeepsConsistent | teams/views.py:272-273 | a reject keeps the tables consistent |
| TeamViews.RejectedStudentCannotReapply | teams/views.py:272-273 | a rejected student is free of pending requests but a new request to the same team hits the unique pair |
| TeamViews.CreateSupervisorRequestGuards | teams/views.py:287-305 | the request succeeds iff a student owning one team without a pending request or supervisor asks a new supervisor; refusals change nothing |
| TeamViews.CreateSupervisorRequest | teams/views.py:287-312 | the tables, reply and notifications are exactly the request outcome |
| TeamViews.InsertKeepsSupervisorRequests | teams/views.py:307 | inserting a new pair keeps supervisor-request integrity |
| TeamViews.InsertKeepsOnePending | teams/views.py:299-307 | a team without a pending request gets at most one |
| TeamViews.CreateSupervisorRequestKeepsConsistent | teams/views.py:299-307 | a supervisor request keeps the tables consistent |
| TeamViews.Assigned | teams/views.py:338-342 | acceptance sets supervisor and owner to the supervisor and the status to accepted, keeping members and topic |
| TeamViews.AcceptanceRecipientAsWritten | teams/views.py:339-347 | as written, the acceptance notice goes to the supervisor |
| TeamViews.RequesterNeverToldAsWritten | teams/views.py:339-347 | so the student owner who asked is never told |
| TeamViews.AcceptSupervisorRequest | teams/views.py:329-348 | the tables, reply and notifications are exactly the corrected acceptance outcome |
| TeamViews.AcceptSupervisorTellsRequester | teams/views.py:338-347 | acceptance succeeds iff the addressed supervisor accepts; the team gets that supervisor as owner with its members kept, and the former owner is told |
| TeamViews.ReplacingKeepsTeams | teams/views.py:338-342 | replacing a team without adding members keeps team integrity |
| TeamViews.ReplacingKeepsFormation | teams/views.py:338-342 | the same keeps the formation invariant |
| TeamViews.ReplacingKeepsConsistent | teams/views.py:338-342 | the same keeps the tables consistent |
| TeamViews.ClosingKeepsSupervisorRequests | teams/views.py:344-345 | closing a supervisor request keeps integrity and one pending request per team |
| TeamViews.DroppingKeepsSupervisorRequests | teams/views.py:377 | deleting supervisor requests keeps integrity and one pending request per team |
| TeamViews.AcceptSupervisorKeepsConsistent | teams/views.py:338-345 | acceptance keeps the tables consistent |
| TeamViews.RejectSupervisorRequest | teams/views.py:354-367 | the tables, reply and notifications are exactly the rejection outcome |
| TeamViews.ClosingFreesTeam | teams/views.py:363-364 | closing the pending request leaves the team with none |
| TeamViews.RejectSupervisorFreesTeam | teams/views.py:363-366 | rejection succeeds iff the addressed supervisor rejects, keeps the tables consistent and frees the team to ask again |
| TeamViews.CancelSupervisorRequest | teams/views.py:373-380 | the tables and reply are exactly the cancel outcome |
| TeamViews.CancelSupervisorRemovesPending | teams/views.py:374-377 | a cancel removes one row, leaves the owner's team with no pending request, and keeps consistency |
| TeamViews.LikeToggle | teams/views.py:386-397 | the tables and reply are exactly the toggle outcome |
| TeamViews.LikeToggleReports | teams/views.py:393-397 | 201 "Liked" iff the like is now present; a second toggle restores the tables; a missing team gives 404; only likes change |
| TeamViews.Withdrawn | teams/views.py:429-434 | the member leaves the team and nothing else about membership changes |
| TeamViews.Withdraw | teams/views.py:429-434 | the tables become the withdrawn tables |
| TeamViews.LeaveTeamGuards | teams/views.py:416-424 | leaving succeeds iff a student is in exactly one team; refusals change nothing |
| TeamViews.LeaveTeam | teams/views.py:413-459 | the tables, reply and notifications are exactly the leave outcome |
| TeamViews.Depart | teams/views.py:437-444 | a non-owner's departure writes the member-left outcome and tells the owner |
| TeamViews.HandOver | teams/views.py:446-457 | an owner's departure writes the owner-left outcome |
| TeamViews.ClearingCreatorKeepsConsistent | teams/views.py:432-434 | clearing the topic's student author keeps consistency |
| TeamViews.WithdrawnIsConsistent | teams/views.py:429-434 | withdrawal keeps consistency |
| TeamViews.LeaveKeepsConsistent | teams/views.py:426-457 | leaving keeps the tables consistent |
| TeamViews.OnlyTeamOf | teams/views.py:422 | under the invariant a member's teams are exactly one |
| TeamViews.WithdrawnLeavesTeamless | teams/views.py:429 | after withdrawal the student is in no team |
| TeamViews.SettlingKeepsOut | teams/views.py:440-457 | hand-over or deletion never puts the leaver back |
| TeamViews.LeaverIsTeamless | teams/views.py:421-429 | on consistent tables leaving never hits multiple rows, and a leaver ends in no team |
| TeamViews.LeaveHandsOverToEarliest | teams/views.py:437-452 | a member's leave notifies the owner; an owner's leave hands over to the earliest remaining member, who is told; the team goes iff nobody is left and the owner left or no supervisor holds it |
| TeamViews.SupervisorDeleteTeam | teams/views.py:465-487 | the tables and reply are exactly the delete outcome |
| TeamViews.SupervisorDeleteOnlyEmpty | teams/views.py:477-485 | deletion succeeds iff the team's own supervisor deletes an empty team; it removes team and topic and keeps consistency |
| TeamViews.RemoveTeamMember | teams/views.py:494-530 | the tables, reply and notifications are exactly the removal outcome |
| TeamViews.RemoveKeepsConsistent | teams/views.py:520-525 | removal keeps the tables consistent |
| TeamViews.RemoveTakesOnlyThatStudent | teams/views.py:516-528 | removal succeeds iff the owner or supervisor removes another student of the team; only that member goes, the student ends teamless, and only they are told |
| Topics.ValidateTopicAdmits | topics/serializers.py:15-46 | updates pass; creation passes iff a teamless student without topic or pending request, or a supervisor below a load of 10, asks |
| Topics.CreateTopic | topics/serializers.py:48-72 | the tables and reply are exactly the creation outcome |
| Topics.CreationSetsUpTeam | topics/serializers.py:51-70 | creation adds one topic and one open team owned by the creator; a student becomes its only member and author, a supervisor its supervisor and author |
| Topics.CreationKeepsTeams | topics/serializers.py:59-63 | creation keeps table integrity |
| Topics.CreationKeepsFormation | topics/serializers.py:65-66 | creation keeps the formation invariant |
| Topics.CreationKeepsConsistent | topics/serializers.py:48-72 | creation keeps the tables consistent |
| Topics.CreationKeepsAuthorsUnique | topics/serializers.py:23-24 | no student authors two topics |
| Topics.NewSupervisorTopic | topics/serializers.py:36-39 | a new topic raises the supervisor's topic count by one |
| Topics.NewSupervisedTeam | topics/serializers.py:36-39 | a new supervised team raises the team count by one |
| Topics.SupervisorCreationAddsTwo | topics/serializers.py:36-41 | a supervisor may create iff the load is below 10, and creation raises the load by 2 |
| Browser.LocalStorage.constructor | src/store/auth.ts:12 | storage holds the given token and liked list |
| Browser.LocalStorage.SetToken | src/store/auth.ts:76 | the token is stored |
| Browser.LocalStorage.RemoveToken | src/store/auth.ts:211 | the token is removed |
| Browser.LocalStorage.SetLikedProjects | src/store/likes.ts:20 | the liked list is stored |
| AuthStore.FailureOf | src/store/auth.ts:91-99 | the thrown object takes each field from the reply when truthy and otherwise the default message, false and no end time |
| AuthStore.NoReplyGivesDefaults | src/store/auth.ts:91-99 | no reply gives "Login failed", not blocked, no end time |
| AuthStore.Auth.constructor | src/store/auth.ts:10-17 | the store starts with the stored token, an empty one counting as none, and everything else cleared |
| AuthStore.Auth.Logout | src/store/auth.ts:192-211 | user and token are cleared in state and in storage |
| AuthStore.Auth.FetchFullProfile | src/store/auth.ts:163-172 | the profile is replaced on success and kept on failure |
| AuthStore.Auth.Login | src/store/auth.ts:68-103 | success iff the login reply has a truthy access token and users/me succeeds; success stores the token and user; failure clears the token in state and storage and throws the failure object; `isLoggingIn` ends false |
| AuthStore.Auth.FetchTeamStatus | src/store/auth.ts:106-125 | a team iff the reply is an object with an id or a non-empty array |
| AuthStore.Auth.FetchPendingRequest | src/store/auth.ts:127-139 | a pending request iff the reply's status is "pending" |
| AuthStore.Auth.RestoreUserAsWritten | src/store/auth.ts:173-190 | no-op without a token or with a user; as written a rejected session returns with the token still set and the logout pending |
| AuthStore.Auth.FinishLogout | src/store/auth.ts:208-211 | a pending logout clears user and token; otherwise nothing changes |
| AuthStore.Auth.RestoreUser | src/store/auth.ts:173-190 | no-op without a token or with a user; otherwise the user is loaded, or on failure user and token are cleared in state and storage |
| RouterGuard.AfterRestore | diploMatch/src/router/index.ts:95-108 | redirect to /login iff the page needs auth and the store has no token |
| RouterGuard.GuardAsWritten | diploMatch/src/router/index.ts:72-109 | public pages pass; auth pages without a stored token redirect; pages without auth pass; with restore as written an auth page is admitted even when the session was rejected |
| RouterGuard.ExpiredSessionAdmittedAsWritten | diploMatch/src/router/index.ts:90-97 | an expired token reaches a protected page and stays in the store |
| RouterGuard.Guard | diploMatch/src/router/index.ts:72-109 | the same decisions, except that a rejected session is redirected to /login with the token cleared |
| RouterGuard.ExpiredSessionRedirected | diploMatch/src/router/index.ts:90-97 | with the logout awaited the expired session is redirected and signed out |
| ChatStore.Normalised | src/store/chat.ts:37 | `toString()` fails exactly on a null id |
| ChatStore.CopiesAgreeOnKeys | diploMatch/src/store/chat.ts:23 | both copies address the same entry for every id except null |
| ChatStore.NumericKeys | src/store/chat.ts:47 | 3 and "3" address the same entry, and different numbers never share one |
| ChatStore.Appended | src/store/chat.ts:46-52 | the chat's list, created empty if missing, gains the message at the end; other chats are untouched |
| ChatStore.Bumped | src/store/chat.ts:56-63 | the chat's count, absent counting as 0, goes up by one; other counts are untouched |
| ChatStore.BumpsCount | src/store/chat.ts:56-67 | n increments after a reset give n, and a reset gives 0 |
| ChatStore.Store.constructor | src/store/chat.ts:20-28 | the store starts closed, with no active chat and empty maps |
| ChatStore.Store.ToggleModal | src/store/chat.ts:30 | the modal flag flips |
| ChatStore.Store.OpenChatModal | src/store/chat.ts:31 | the modal is open |
| ChatStore.Store.CloseChatModal | src/store/chat.ts:32 | the modal is closed |
| ChatStore.Store.ClearActiveChat | src/store/chat.ts:33 | no chat is active |
| ChatStore.Store.SetActiveChat | src/store/chat.ts:34 | that chat is active |
| ChatStore.Store.SetLastMessage | src/store/chat.ts:36-41 | only content and timestamp are kept; a null id throws and changes nothing |
| ChatStore.Store.SetMessages | src/store/chat.ts:42-44 | the chat's list is replaced wholesale; a null id throws |
| ChatStore.Store.AddMessage | src/store/chat.ts:46-52 | the message is appended to its chat; a null id throws |
| ChatStore.Store.SetTypingUser | src/store/chat.ts:54 | the typing user is set |
| ChatStore.Store.IncrementUnread | src/store/chat.ts:56-63 | the chat's count goes up by one; a null id throws |
| ChatStore.Store.ResetUnread | src/store/chat.ts:65-67 | the chat's count becomes 0; a null id throws |
| ChatStore.UntypedStore.constructor | diploMatch/src/store/chat.ts:6-14 | the store starts closed, with no active chat and empty maps |
| ChatStore.UntypedStore.ToggleModal | diploMatch/src/store/chat.ts:16 | the modal flag flips |
| ChatStore.UntypedStore.OpenChatModal | diploMatch/src/store/chat.ts:17 | the modal is open |
| ChatStore.UntypedStore.CloseChatModal | diploMatch/src/store/chat.ts:18 | the modal is closed |
| ChatStore.UntypedStore.ClearActiveChat | diploMatch/src/store/chat.ts:19 | no chat is active |
| ChatStore.UntypedStore.SetActiveChat | diploMatch/src/store/chat.ts:20 | that chat is active |
| ChatStore.UntypedStore.SetLastMessage | diploMatch/src/store/chat.ts:22-27 | only content and timestamp are kept, under the id's property key |
| ChatStore.UntypedStore.SetMessages | diploMatch/src/store/chat.ts:28-30 | the chat's list is replaced wholesale |
| ChatStore.UntypedStore.AddMessage | diploMatch/src/store/chat.ts:32-37 | the message is appended to its chat, including under "null" |
| ChatStore.UntypedStore.SetTypingUser | diploMatch/src/store/chat.ts:39 | the typing user is set |
| ChatStore.UntypedStore.IncrementUnread | diploMatch/src/store/chat.ts:41-47 | the chat's count goes up by one |
| ChatStore.UntypedStore.ResetUnread | diploMatch/src/store/chat.ts:49-51 | the chat's count becomes 0 |
| LikeStore.Without | src/store/likes.ts:34 | filtering removes every occurrence of the id and keeps every other id |
| LikeStore.Toggled | src/store/likes.ts:33-37 | after a toggle the id is present iff it was absent; other ids are unaffected |
| LikeStore.ToggleTwiceRestoresMembership | src/store/likes.ts:33-37 | toggling twice restores every id's membership |
| LikeStore.ToggleTwiceRestoresList | src/store/likes.ts:33-37 | for an id not liked, toggling twice restores the list itself |
| LikeStore.DuplicatesCollapse | src/store/likes.ts:34 | a duplicated id is removed entirely, so only membership is restored |
| LikeStore.Teams | src/store/likes.ts:19 | the liked teams in reply order |
| LikeStore.Likes.constructor | src/store/likes.ts:8-10 | the list starts empty |
| LikeStore.Likes.FetchLikes | src/store/likes.ts:13-24 | the list becomes the reply's teams in order and is mirrored to storage; a failure changes nothing |
| LikeStore.Likes.ToggleLike | src/store/likes.ts:26-42 | after a successful post the list is toggled and mirrored; a failed post changes nothing |
| NotificationStore.NotificationCounter.constructor | src/store/notifications.ts:9-11 | the count starts at 0 |
| NotificationStore.NotificationCounter.SetCount | src/store/notifications.ts:13-15 | the count becomes exactly the given value |
| NotificationStore.NotificationCounter.Increment | src/store/notifications.ts:16-18 | the count goes up by exactly 1 |
| NotificationStore.NotificationCounter.Reset | src/store/notifications.ts:19-21 | the count becomes 0 |

## Left out

- HTTP, JSON, websockets and the API client: requests and replies are parameters, and websocket
  accept and close are flags on the consumer objects.
- Asynchronous transport (`async_to_sync`, `database_sync_to_async`, the event loop): the
  channel layer is delivered synchronously, in order, and no races are modelled.
- Password hashing and Django's authentication: a password is compared as the stored string.
- Serializer field validation other than the modelled checks (field types and lengths, the
  email format); password-reset mail and token generation in users/views.py. Stripping of
  surrounding whitespace and the blank check are modelled where the source's checks depend on
  them.
- Accounts.Register: Django's password validators (`validate_password`) and the email format
  check are not modelled. Their configuration is not part of this model, so success is stated
  for any non-blank password.
- Cache expiry is an absolute expiry time checked lazily on read; the 600 s and 900 s timeouts
  appear as those offsets.
- Timestamps are integer seconds, so "less than one second" means the same second.
- Querysets without an ordering are taken in ascending key order, and a `get()` that matches
  several rows is reported as a server error.
- TeamModels.JoinedFirst: `order_by('joined_at')` leaves ties to the database. The model gives
  a tie to the smaller user key, and with whole-second timestamps ties can happen.
- Read-only views (my team, supervisor projects, the request lists, incoming supervisor
  requests, export) are not modelled: they change no state.
- `NotificationConsumer.receive` is not modelled because it ignores every frame.
- The client's `fetchUser`, `register`, `updateProfile`, `requestPasswordReset`,
  `resetPassword`, `refreshTeamAndRequestStatus`, `setChatList` and `fetchMessages` are not
  modelled. They only forward API calls.
- `router.push` inside the auth store's actions and page navigation itself are not modelled.
  The guard returns a decision.
- `isLoggingIn` is shown false after `login` returns; its true value exists only during the
  awaits.
- diploMatch/src/store/auth.ts is not part of this model. The router imports it; the guard is
  modelled against src/store/auth.ts.
- profiles/signals.py is not modelled separately. It repeats the role-profile hook that
  `Profiles.EnsureRoleProfile` models.
- A gpa is kept only for its truthiness (present and non-zero); its float arithmetic is not
  modelled.
- Accounts.Lower: Python's `str.lower` covers every cased Unicode character. The model lowers
  only A-Z, the Latin-1 capitals and the Cyrillic capitals, each to one character. Other scripts
  in a domain are kept as given, and letters whose lower case is longer are not modelled.
- Accounts.NormalizeEmail: its own contract states only the length bound. An address without
  '@' being kept is stated in NormalizeWithoutAt, the normal form in NormalFormAt, and the kept local part and idempotence in
  NormalizeEmailIdempotent.
- Profiles.ProfileSaveAsWritten: the as-written guard is characterised only by
  DuplicateGuardNeverFires.
- The `portfolio` and `photo` profile fields are not modelled. They are writable through the
  serializers' `setattr` loop, but no check or completion rule reads them.
- Chat.ChatConsumer: the group is named from the chat's id rendered in decimal. The source
  uses the URL segment as typed, so "007" and "7" name different groups there and one group
  here.

## Findings

| source | as written | input that shows it | evidently intended | confidence | as-written member | corrected member |
|---|---|---|---|---|---|---|
| teams/models.py:49 | `approve_team` counts `supervisor.teams`, an attribute the supervisor profile does not have (the reverse accessor of `Team.supervisor` is `team_set`) | any pending team and any supervisor | count the teams the supervisor already supervises and refuse at 10 | high, not executed | TeamModels.ApprovalAlwaysRaisesAsWritten | TeamModels.ApprovalKeepsSupervisorLimit |
| users/serializers.py:46 | an unknown email calls `cache.incr` on the address counter, which raises when the key is missing | the first login attempt with an unknown email from an address with no counter | start the counter at 1, as the wrong-password path does | high, not executed | LoginGuard.UnknownEmailFromQuietAddressFails | LoginGuard.BumpIpAlwaysCounts |
| src/store/auth.ts:188 | `restoreUser` calls `logout()` without awaiting it, so the guard at diploMatch/src/router/index.ts:95 still sees the token | a stored token that users/me rejects, navigating to a protected page | await the logout so the guard redirects to /login | medium, not executed | RouterGuard.ExpiredSessionAdmittedAsWritten | RouterGuard.ExpiredSessionRedirected |
| profiles/models.py:45 | the duplicate-profile guard tests `not self.pk`, but the key is the user's id and is always set | `StudentProfile(user=u, first_name="x").save()` for a user `u` who already has a student profile | refuse adding a second profile for a user | medium, not executed | Profiles.SaveAsWrittenOverwrites | Profiles.StoredProfileSurvives |
| teams/views.py:339-347 | the acceptance notice is sent to `team.owner` after the owner has been replaced by the supervisor | a supervisor accepting a student team's request | tell the student who sent the request | medium, not executed | TeamViews.RequesterNeverToldAsWritten | TeamViews.AcceptSupervisorTellsRequester |

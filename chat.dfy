/** Direct messages (chat/views.py, chat/consumers.py): presence, finding or starting a
    two-person chat, listing, posting and reading messages, and ChatConsumer, the
    websocket of one chat, which stores what is typed into it and broadcasts it to the
    chat's group. */
module Chat {
  import opened Common
  import opened Schema
  import opened ChannelLayer

  const UserIdRequired := "user_id is required"
  const UserNotFound := "User not found"
  const FieldRequired := "This field is required."
  const MarkedAsRead := "marked as read"

  // ---------------------------------------------------------------- presence

  /** Seconds after the last ping during which a user is reported online. */
  const PresenceWindow := 60

  /** UserStatusView: the stored record with `is_online` recomputed from `last_seen`. */
  function ReportedStatus(statuses: map<UserId, UserStatus>, uid: UserId, now: Time): (r: Option<UserStatus>)
    ensures r.Some? <==> uid in statuses
  {
    if uid !in statuses then None
    else
      var st := statuses[uid];
      Some(st.(isOnline := !(now - st.lastSeen > PresenceWindow)))
  }

  /** The report says online exactly within sixty seconds of the last ping, whatever the
      stored flag says, and shows the stored `last_seen`. */
  lemma PresenceIgnoresStoredFlag(statuses: map<UserId, UserStatus>, uid: UserId, now: Time, flag: bool)
    requires uid in statuses
    ensures ReportedStatus(statuses, uid, now).value.isOnline <==> now - statuses[uid].lastSeen <= 60
    ensures ReportedStatus(statuses, uid, now).value.lastSeen == statuses[uid].lastSeen
    ensures ReportedStatus(statuses[uid := statuses[uid].(isOnline := flag)], uid, now) == ReportedStatus(statuses, uid, now)
  {
  }

  /** `set_user_online`: get-or-create, then online as of now. */
  method SetUserOnline(db: Database, uid: UserId, now: Time)
    modifies db`statuses
    ensures db.statuses == old(db.statuses)[uid := UserStatus(true, now)]
  {
    db.statuses := db.statuses[uid := UserStatus(true, now)];
  }

  /** `set_user_offline`: a record that is there is marked offline as of now; none is created. */
  method SetUserOffline(db: Database, uid: UserId, now: Time)
    modifies db`statuses
    ensures uid in old(db.statuses) ==> db.statuses == old(db.statuses)[uid := UserStatus(false, now)]
    ensures uid !in old(db.statuses) ==> db.statuses == old(db.statuses)
  {
    if uid in db.statuses {
      db.statuses := db.statuses[uid := UserStatus(false, now)];
    }
  }

  /** Disconnecting moves `last_seen` to the moment of leaving, so a user who leaves is
      still reported online for the next sixty seconds and offline after that. */
  lemma LeavingShowsOnlineForAMinute(statuses: map<UserId, UserStatus>, uid: UserId, left: Time, later: Time)
    requires uid in statuses && left <= later
    ensures var after := statuses[uid := UserStatus(false, left)];
            ReportedStatus(after, uid, later).value.isOnline <==> later <= left + 60
  {
  }

  // ---------------------------------------------------------------- start_or_get_chat

  /** `Chat.objects.filter(participants=a).filter(participants=b)`, in ascending key order:
      every chat both users take part in, each once. */
  function Candidates(chats: map<ChatId, set<UserId>>, a: UserId, b: UserId): (r: seq<ChatId>)
    ensures forall i :: 0 <= i < |r| ==> r[i] in chats && a in chats[r[i]] && b in chats[r[i]]
    ensures forall c :: c in chats && a in chats[c] && b in chats[c] ==> c in r
    ensures forall i, j :: 0 <= i < j < |r| ==> r[i] < r[j]
  {
    Ascending(set c | c in chats && a in chats[c] && b in chats[c])
  }

  /** The first chat in `ids` with exactly two participants. */
  function FirstPair(chats: map<ChatId, set<UserId>>, ids: seq<ChatId>): Option<ChatId>
    requires forall i :: 0 <= i < |ids| ==> ids[i] in chats
  {
    if ids == [] then None
    else if |chats[ids[0]]| == 2 then Some(ids[0])
    else FirstPair(chats, ids[1..])
  }

  /** The first pair found is in the list and has two participants; no earlier one does;
      finding none means none in the list has two. */
  lemma {:induction false} FirstPairIsFirst(chats: map<ChatId, set<UserId>>, ids: seq<ChatId>)
    requires forall i :: 0 <= i < |ids| ==> ids[i] in chats
    ensures FirstPair(chats, ids).Some? ==>
              exists k :: && 0 <= k < |ids| && ids[k] == FirstPair(chats, ids).value && |chats[ids[k]]| == 2
                          && forall j :: 0 <= j < k ==> |chats[ids[j]]| != 2
    ensures FirstPair(chats, ids).None? ==> forall j :: 0 <= j < |ids| ==> |chats[ids[j]]| != 2
  {
    if ids == [] {
    } else if |chats[ids[0]]| == 2 {
      assert ids[0] == FirstPair(chats, ids).value;
    } else {
      var tail := ids[1..];
      FirstPairIsFirst(chats, tail);
      assert FirstPair(chats, ids) == FirstPair(chats, tail);
      forall j | 0 < j < |ids| ensures ids[j] == tail[j - 1] { }
      if FirstPair(chats, tail).Some? {
        var k :| && 0 <= k < |tail| && tail[k] == FirstPair(chats, tail).value && |chats[tail[k]]| == 2
                 && forall j :: 0 <= j < k ==> |chats[tail[j]]| != 2;
        assert ids[k + 1] == tail[k];
      }
    }
  }

  /** user_id, when given, is present and truthy. */
  predicate Given(target: Option<UserId>) {
    target.Some? && target.value != 0
  }

  /** POST chats/start/ by `current`: the existing two-person chat with `target`, looked for
      among the chats both are in, in ascending key order; otherwise a new chat of the two. */
  method StartOrGetChat(db: Database, current: UserId, target: Option<UserId>) returns (r: Response, chat: Option<ChatId>)
    requires db.ChatsValid()
    modifies db`chats, db`nextChatId
    ensures db.ChatsValid()
    ensures !Given(target) ==> r == Response(400, UserIdRequired) && chat.None? && unchanged(db)
    ensures Given(target) && target.value !in db.users ==> r == Response(404, UserNotFound) && chat.None? && unchanged(db)
    ensures Given(target) && target.value in db.users ==>
              var found := FirstPair(old(db.chats), Candidates(old(db.chats), current, target.value));
              && (found.Some? ==> r.status == 200 && chat == found && unchanged(db))
              && (found.None? ==> && r.status == 201 && chat == Some(old(db.nextChatId))
                                  && db.chats == old(db.chats)[old(db.nextChatId) := {current, target.value}]
                                  && db.nextChatId == old(db.nextChatId) + 1)
  {
    if !Given(target) {
      return Response(400, UserIdRequired), None;
    }
    if target.value !in db.users {
      return Response(404, UserNotFound), None;
    }
    var found := FindPair(db.chats, Candidates(db.chats, current, target.value));
    if found.Some? {
      return Response(200, NatToString(found.value)), found;
    }
    var c := db.nextChatId;
    db.chats := db.chats[c := {current, target.value}];
    db.nextChatId := c + 1;
    r, chat := Response(201, NatToString(c)), Some(c);
  }

  /** The lookup loop of start_or_get_chat: the chats in turn, stopping at the first pair. */
  method FindPair(chats: map<ChatId, set<UserId>>, ids: seq<ChatId>) returns (found: Option<ChatId>)
    requires forall i :: 0 <= i < |ids| ==> ids[i] in chats
    ensures found == FirstPair(chats, ids)
  {
    var i := 0;
    while i < |ids|
      invariant 0 <= i <= |ids|
      invariant FirstPair(chats, ids) == FirstPair(chats, ids[i..])
    {
      if |chats[ids[i]]| == 2 {
        return Some(ids[i]);
      }
      assert ids[i..][1..] == ids[i + 1..];
      i := i + 1;
    }
    return None;
  }

  /** A two-element set holding two different users is exactly those two. */
  lemma PairIsExactly(p: set<UserId>, a: UserId, b: UserId)
    requires |p| == 2 && a in p && b in p && a != b
    ensures p == {a, b}
  {
    if p != {a, b} {
      var x :| x in p && x != a && x != b;
      assert |{a, b, x}| == 3;
      SubsetCard({a, b, x}, p);
    }
  }

  /** A chat that is returned has both users in it and exactly two participants, so for two
      different users it is exactly their chat. */
  lemma FoundChatIsTheirs(chats: map<ChatId, set<UserId>>, current: UserId, target: UserId)
    ensures var found := FirstPair(chats, Candidates(chats, current, target));
            found.Some? ==> && found.value in chats && |chats[found.value]| == 2
                            && current in chats[found.value] && target in chats[found.value]
                            && (current != target ==> chats[found.value] == {current, target})
  {
    var ids := Candidates(chats, current, target);
    FirstPairIsFirst(chats, ids);
    var found := FirstPair(chats, ids);
    if found.Some? {
      var k :| 0 <= k < |ids| && ids[k] == found.value && |chats[ids[k]]| == 2;
      if current != target {
        PairIsExactly(chats[found.value], current, target);
      }
    }
  }

  /** When exactly one chat of the list has two participants, that one is found. */
  lemma {:induction false} OnlyPairIsFound(chats: map<ChatId, set<UserId>>, ids: seq<ChatId>, x: ChatId)
    requires forall i :: 0 <= i < |ids| ==> ids[i] in chats
    requires x in ids && x in chats && |chats[x]| == 2
    requires forall y :: y in ids && y != x ==> y in chats && |chats[y]| != 2
    ensures FirstPair(chats, ids) == Some(x)
  {
    if ids[0] != x {
      assert ids[0] in ids;
      OnlyPairIsFound(chats, ids[1..], x);
    }
  }

  /** Once a chat has been started for two different users, asking again returns it. */
  lemma SecondCallReturnsSameChat(chats: map<ChatId, set<UserId>>, current: UserId, target: UserId, c: ChatId)
    requires c !in chats && current != target
    requires FirstPair(chats, Candidates(chats, current, target)).None?
    ensures var after := chats[c := {current, target}];
            FirstPair(after, Candidates(after, current, target)) == Some(c)
  {
    var after := chats[c := {current, target}];
    var before := Candidates(chats, current, target);
    var ids := Candidates(after, current, target);
    FirstPairIsFirst(chats, before);
    forall y | y in ids && y != c ensures y in after && |after[y]| != 2 {
      var j :| 0 <= j < |before| && before[j] == y;
    }
    OnlyPairIsFound(after, ids, c);
  }

  // ---------------------------------------------------------------- messages

  /** `Message.objects.filter(chat=chat)` */
  function InChat(ms: seq<Message>, chat: ChatId): (r: seq<Message>)
    ensures |r| <= |ms|
    ensures forall i :: 0 <= i < |r| ==> r[i].chat == chat
  {
    if ms == [] then []
    else InChat(ms[..|ms| - 1], chat) + (if ms[|ms| - 1].chat == chat then [ms[|ms| - 1]] else [])
  }

  /** Every message of the chat is listed. */
  lemma {:induction false} InChatComplete(ms: seq<Message>, chat: ChatId)
    ensures forall m :: m in ms && m.chat == chat ==> m in InChat(ms, chat)
  {
    if ms != [] {
      InChatComplete(ms[..|ms| - 1], chat);
      assert ms == ms[..|ms| - 1] + [ms[|ms| - 1]];
    }
  }

  predicate Participant(chats: map<ChatId, set<UserId>>, chat: ChatId, uid: UserId) {
    chat in chats && uid in chats[chat]
  }

  /** GET chats/<chat>/messages/: only for a participant. */
  method ListMessages(db: Database, uid: UserId, chat: ChatId) returns (r: Response, listed: seq<Message>)
    ensures Participant(db.chats, chat, uid) ==> r.status == 200 && listed == InChat(db.messages, chat)
    ensures !Participant(db.chats, chat, uid) ==> r == Response(404, NotFound) && listed == []
  {
    if !Participant(db.chats, chat, uid) {
      return Response(404, NotFound), [];
    }
    r, listed := Response(200, ""), InChat(db.messages, chat);
  }

  /** A new Message row: the next id, stamped now. */
  method StoreMessage(db: Database, chat: ChatId, sender: UserId, content: string, now: Time, isRead: bool) returns (m: Message)
    requires db.ChatsValid() && chat in db.chats
    modifies db`messages, db`nextMessageId
    ensures db.ChatsValid()
    ensures m == Message(old(db.nextMessageId), chat, sender, content, now, isRead)
    ensures db.messages == old(db.messages) + [m] && db.nextMessageId == old(db.nextMessageId) + 1
  {
    m := Message(db.nextMessageId, chat, sender, content, now, isRead);
    db.messages := db.messages + [m];
    db.nextMessageId := db.nextMessageId + 1;
  }

  /** POST chats/<chat>/messages/: the body is validated first (content required, stripped
      of surrounding whitespace and then not blank; is_read optional), then the chat is looked
      up among the sender's own. The stripped content is stored. */
  method PostMessage(db: Database, uid: UserId, chat: ChatId, content: Option<string>, isRead: Option<bool>, now: Time)
    returns (r: Response)
    requires db.ChatsValid()
    modifies db`messages, db`nextMessageId
    ensures db.ChatsValid()
    ensures content.None? ==> r == Response(400, FieldRequired) && unchanged(db)
    ensures content.Some? && Trim(content.value) == "" ==> r == Response(400, Blank) && unchanged(db)
    ensures content.Some? && Trim(content.value) != "" && !Participant(db.chats, chat, uid) ==>
              r == Response(404, NotFound) && unchanged(db)
    ensures content.Some? && Trim(content.value) != "" && Participant(db.chats, chat, uid) ==>
              && r == Response(201, NatToString(old(db.nextMessageId)))
              && db.messages == old(db.messages) + [Message(old(db.nextMessageId), chat, uid, Trim(content.value), now,
                                                            isRead == Some(true))]
  {
    if content.None? {
      return Response(400, FieldRequired);
    }
    var text := Trim(content.value);
    if text == "" {
      return Response(400, Blank);
    }
    if !Participant(db.chats, chat, uid) {
      return Response(404, NotFound);
    }
    var m := StoreMessage(db, chat, uid, text, now, isRead == Some(true));
    r := Response(201, NatToString(m.id));
  }

  /** What a posted message stores: never blank, never padded with whitespace, and the
      same whatever whitespace surrounded the typed text. */
  lemma {:induction false} PostedContentIsStripped(content: string, pad: string)
    requires AllSpace(pad)
    ensures Trim(content) == "" <==> AllSpace(content)
    ensures Stripped(Trim(content))
    ensures Trim(pad + Trim(content) + pad) == Trim(content)
  {
    TrimEmptyIffAllSpace(content);
    TrimOfPadded(pad, Trim(content), pad);
  }

  /** A participant can read the chat's messages: what is posted shows up in the list. */
  lemma PostedMessageIsListed(ms: seq<Message>, m: Message)
    ensures m in InChat(ms + [m], m.chat)
  {
    assert (ms + [m])[..|ms|] == ms;
  }

  /** `get_object_or_404(Message, id=id, chat__participants=user)` */
  predicate Readable(db: Database, uid: UserId, id: nat)
    reads db`messages, db`chats
  {
    exists i :: 0 <= i < |db.messages| && db.messages[i].id == id && Participant(db.chats, db.messages[i].chat, uid)
  }

  /** The messages with `is_read` set on the row with key `id`. */
  function MarkedRead(ms: seq<Message>, id: nat): seq<Message> {
    seq(|ms|, i requires 0 <= i < |ms| => if ms[i].id == id then ms[i].(isRead := true) else ms[i])
  }

  /** PATCH messages/<id>/read/ */
  method MarkMessageRead(db: Database, uid: UserId, id: nat) returns (r: Response)
    requires db.ChatsValid()
    modifies db`messages
    ensures db.ChatsValid()
    ensures old(Readable(db, uid, id)) ==> db.messages == MarkedRead(old(db.messages), id) && r == Response(200, MarkedAsRead)
    ensures !old(Readable(db, uid, id)) ==> db.messages == old(db.messages) && r == Response(404, NotFound)
  {
    if !Readable(db, uid, id) {
      return Response(404, NotFound);
    }
    db.messages := MarkedRead(db.messages, id);
    r := Response(200, MarkedAsRead);
  }

  /** Marking sets the flag on that message only, changes nothing else, and is idempotent. */
  lemma MarkReadTouchesOnlyThatMessage(ms: seq<Message>, id: nat)
    ensures |MarkedRead(ms, id)| == |ms|
    ensures forall i :: 0 <= i < |ms| && ms[i].id == id ==> MarkedRead(ms, id)[i] == ms[i].(isRead := true)
    ensures forall i :: 0 <= i < |ms| && ms[i].id != id ==> MarkedRead(ms, id)[i] == ms[i]
    ensures MarkedRead(MarkedRead(ms, id), id) == MarkedRead(ms, id)
  {
  }

  // ---------------------------------------------------------------- the websocket

  /** An inbound frame: its "type" and "message" keys. */
  datatype Inbound = Inbound(kind: Option<string>, message: Option<string>)

  class ChatConsumer {
    /** `scope["user"]`: None for an anonymous connection. */
    const user: Option<UserId>
    const email: string
    /** The `chat_id` of the URL. */
    const chatId: ChatId
    const conn: ConnId
    var accepted: bool
    var closed: bool
    var outbox: seq<Frame>

    constructor (user: Option<UserId>, email: string, chatId: ChatId, conn: ConnId)
      ensures this.user == user && this.email == email && this.chatId == chatId && this.conn == conn
      ensures !accepted && !closed && outbox == []
    {
      this.user, this.email, this.chatId, this.conn := user, email, chatId, conn;
      accepted, closed, outbox := false, false, [];
    }

    /** f"chat_{chat_id}" */
    function Group(): string
      reads this
    {
      ChatGroup(NatToString(chatId))
    }

    /** A signed-in user joins the chat's group, is accepted and marked online; any other
        socket is closed without subscribing. */
    method Connect(db: Database, layer: ChannelLayer, now: Time)
      modifies this`accepted, this`closed, layer`groups, db`statuses
      ensures user.Some? ==> && layer.groups == old(layer.groups)[Group() := Members(old(layer.groups), Group()) + {conn}]
                             && accepted && db.statuses == old(db.statuses)[user.value := UserStatus(true, now)]
      ensures user.None? ==> layer.groups == old(layer.groups) && closed && db.statuses == old(db.statuses)
    {
      if user.Some? {
        layer.GroupAdd(Group(), conn);
        accepted := true;
        SetUserOnline(db, user.value, now);
      } else {
        closed := true;
      }
    }

    /** A signed-in user is marked offline and leaves the group. */
    method Disconnect(db: Database, layer: ChannelLayer, now: Time)
      modifies layer`groups, db`statuses
      ensures user.Some? ==> && (Group() in old(layer.groups) ==>
                                   layer.groups == old(layer.groups)[Group() := old(layer.groups)[Group()] - {conn}])
                             && (Group() !in old(layer.groups) ==> layer.groups == old(layer.groups))
                             && (user.value in old(db.statuses) ==>
                                   db.statuses == old(db.statuses)[user.value := UserStatus(false, now)])
                             && (user.value !in old(db.statuses) ==> db.statuses == old(db.statuses))
      ensures user.None? ==> layer.groups == old(layer.groups) && db.statuses == old(db.statuses)
    {
      if user.Some? {
        SetUserOffline(db, user.value, now);
        layer.GroupDiscard(Group(), conn);
      }
    }

    /** `receive`: a ping only refreshes presence; a typing frame is broadcast and nothing is
        stored; a non-empty message is stored, then broadcast with the stored timestamp. A
        message for a chat that is not there raises, which closes the socket. */
    method Receive(db: Database, layer: ChannelLayer, frame: Inbound, now: Time)
      requires user.Some? && db.ChatsValid()
      modifies db`statuses, db`messages, db`nextMessageId, layer`queues, this`closed
      ensures db.ChatsValid()
      ensures frame.kind == Some("ping") ==>
                && db.statuses == old(db.statuses)[user.value := UserStatus(true, now)]
                && db.messages == old(db.messages) && layer.queues == old(layer.queues)
      ensures frame.kind == Some("typing") ==>
                && layer.queues == Fanout(old(layer.queues), Members(layer.groups, Group()), UserTyping(email))
                && db.messages == old(db.messages) && db.statuses == old(db.statuses)
      ensures frame.kind != Some("ping") && frame.kind != Some("typing") && Truthy(frame.message) && chatId in db.chats ==>
                && db.messages == old(db.messages) + [Message(old(db.nextMessageId), chatId, user.value, frame.message.value, now, false)]
                && layer.queues == Fanout(old(layer.queues), Members(layer.groups, Group()),
                                          ChatMessage(frame.message.value, email, now, NatToString(chatId)))
                && db.statuses == old(db.statuses)
      ensures frame.kind != Some("ping") && frame.kind != Some("typing") && Truthy(frame.message) && chatId !in db.chats ==>
                && closed && db.messages == old(db.messages) && layer.queues == old(layer.queues)
      ensures frame.kind != Some("ping") && frame.kind != Some("typing") && !Truthy(frame.message) ==>
                && db.messages == old(db.messages) && layer.queues == old(layer.queues) && db.statuses == old(db.statuses)
    {
      if frame.kind == Some("ping") {
        SetUserOnline(db, user.value, now);
        return;
      }
      if frame.kind == Some("typing") {
        layer.GroupSend(Group(), UserTyping(email));
        return;
      }
      if Truthy(frame.message) {
        if chatId !in db.chats {
          closed := true;
          return;
        }
        var m := StoreMessage(db, chatId, user.value, frame.message.value, now, false);
        layer.GroupSend(Group(), ChatMessage(frame.message.value, email, m.timestamp, NatToString(chatId)));
      }
    }

    /** The `chat_message` handler: the event's four keys go down the socket. */
    method ChatMessageHandler(message: string, sender: string, timestamp: Time, chat: string)
      modifies this`outbox
      ensures outbox == old(outbox) + [ChatFrame(message, sender, timestamp, chat)]
    {
      outbox := outbox + [ChatFrame(message, sender, timestamp, chat)];
    }

    /** The `user_typing` handler. */
    method UserTypingHandler(who: string)
      modifies this`outbox
      ensures outbox == old(outbox) + [TypingFrame(who)]
    {
      outbox := outbox + [TypingFrame(who)];
    }
  }

  /** The consumer does not check that the user takes part in the chat: any signed-in user
      who opens the socket of a chat stores messages in it and receives its broadcasts. */
  lemma OutsiderReachesChat(groups: map<string, set<ConnId>>, queues: map<ConnId, seq<Event>>,
                            chats: map<ChatId, set<UserId>>, chat: ChatId, c: ConnId, e: Event)
    requires chat in chats
    ensures var g := ChatGroup(NatToString(chat));
            var joined := groups[g := Members(groups, g) + {c}];
            Queue(Fanout(queues, Members(joined, g), e), c) == Queue(queues, c) + [e]
  {
  }
}

/** A user's notification inbox: the REST views of notifications/views.py over the
    Notification table, and NotificationConsumer (notifications/consumers.py), the
    websocket that subscribes a signed-in user to their `user_{id}` group. */
module Inbox {
  import opened Common
  import opened Schema
  import opened ChannelLayer
  import opened Notify

  const AllMarkedRead := "all marked as read"
  const NotificationDeleted := "deleted"

  // ---------------------------------------------------------------- queries

  /** `Notification.objects.filter(user=user)`, oldest first. */
  function Own(ns: seq<Notification>, uid: UserId): (r: seq<Notification>)
    ensures |r| <= |ns|
    ensures forall i :: 0 <= i < |r| ==> r[i].user == uid
  {
    if ns == [] then []
    else Own(ns[..|ns| - 1], uid) + (if ns[|ns| - 1].user == uid then [ns[|ns| - 1]] else [])
  }

  /** `Notification.objects.filter(user=user, is_read=False).count()` */
  function UnreadCount(ns: seq<Notification>, uid: UserId): nat {
    if ns == [] then 0
    else UnreadCount(ns[..|ns| - 1], uid) + (if ns[|ns| - 1].user == uid && !ns[|ns| - 1].isRead then 1 else 0)
  }

  /** `.update(is_read=True)` on the user's rows. */
  function ReadAll(ns: seq<Notification>, uid: UserId): seq<Notification> {
    seq(|ns|, i requires 0 <= i < |ns| => if ns[i].user == uid then ns[i].(isRead := true) else ns[i])
  }

  /** `order_by('-timestamp')` over rows stored in timestamp order. */
  function Reversed(ns: seq<Notification>): (r: seq<Notification>)
    ensures |r| == |ns|
    ensures forall i :: 0 <= i < |ns| ==> r[i] == ns[|ns| - 1 - i]
  {
    if ns == [] then [] else [ns[|ns| - 1]] + Reversed(ns[..|ns| - 1])
  }

  // ---------------------------------------------------------------- the count

  /** The count is zero exactly when every one of the user's notifications is read. */
  lemma {:induction false} UnreadCountZeroIff(ns: seq<Notification>, uid: UserId)
    ensures UnreadCount(ns, uid) == 0 <==> forall i :: 0 <= i < |ns| && ns[i].user == uid ==> ns[i].isRead
  {
    if ns != [] {
      var init := ns[..|ns| - 1];
      UnreadCountZeroIff(init, uid);
      if UnreadCount(ns, uid) == 0 {
        forall i | 0 <= i < |ns| && ns[i].user == uid ensures ns[i].isRead {
          if i < |ns| - 1 {
            assert init[i] == ns[i];
          }
        }
      } else if UnreadCount(init, uid) != 0 {
        var i :| 0 <= i < |init| && init[i].user == uid && !init[i].isRead;
        assert ns[i] == init[i];
      }
    }
  }

  /** A notification just sent is one more unread for its recipient and none for anyone else. */
  lemma NewNoteIsUnread(ns: seq<Notification>, id: nat, n: Note, uid: UserId)
    ensures UnreadCount(ns + [NoteRow(id, n)], uid) == UnreadCount(ns, uid) + (if uid == n.user then 1 else 0)
  {
    assert (ns + [NoteRow(id, n)])[..|ns|] == ns;
  }

  /** The count never exceeds the number of the user's notifications. */
  lemma {:induction false} UnreadAtMostOwn(ns: seq<Notification>, uid: UserId)
    ensures UnreadCount(ns, uid) <= |Own(ns, uid)|
  {
    if ns != [] {
      UnreadAtMostOwn(ns[..|ns| - 1], uid);
    }
  }

  // ---------------------------------------------------------------- marking read

  lemma ReadAllPrefix(ns: seq<Notification>, uid: UserId)
    requires ns != []
    ensures ReadAll(ns, uid)[..|ns| - 1] == ReadAll(ns[..|ns| - 1], uid)
  {
  }

  /** Marking reads only the user's own rows, changes nothing else about them, and leaves
      every other user's rows alone; ids and order are kept. */
  lemma ReadAllTouchesOnlyOwn(ns: seq<Notification>, uid: UserId)
    ensures |ReadAll(ns, uid)| == |ns|
    ensures forall i :: 0 <= i < |ns| ==> ReadAll(ns, uid)[i].(isRead := ns[i].isRead) == ns[i]
    ensures forall i :: 0 <= i < |ns| && ns[i].user != uid ==> ReadAll(ns, uid)[i] == ns[i]
    ensures forall i :: 0 <= i < |ns| && ns[i].user == uid ==> ReadAll(ns, uid)[i].isRead
  {
  }

  /** After marking, the user's count is zero, and marking again changes nothing. */
  lemma ReadAllClearsCount(ns: seq<Notification>, uid: UserId)
    ensures UnreadCount(ReadAll(ns, uid), uid) == 0
    ensures ReadAll(ReadAll(ns, uid), uid) == ReadAll(ns, uid)
  {
    UnreadCountZeroIff(ReadAll(ns, uid), uid);
  }

  /** Marking keeps the notification ids handed out and unique. */
  lemma ReadAllKeepsIds(ns: seq<Notification>, uid: UserId, next: nat)
    requires forall i :: 0 <= i < |ns| ==> ns[i].id < next
    requires UniqueNotificationIds(ns)
    ensures forall i :: 0 <= i < |ns| ==> ReadAll(ns, uid)[i].id < next
    ensures UniqueNotificationIds(ReadAll(ns, uid))
  {
  }

  /** The user's rows after marking are the user's rows before, each marked read. */
  lemma {:induction false} OwnAfterReadAll(ns: seq<Notification>, uid: UserId)
    ensures |Own(ReadAll(ns, uid), uid)| == |Own(ns, uid)|
    ensures forall i :: 0 <= i < |Own(ns, uid)| ==> Own(ReadAll(ns, uid), uid)[i] == Own(ns, uid)[i].(isRead := true)
  {
    if ns != [] {
      ReadAllPrefix(ns, uid);
      OwnAfterReadAll(ns[..|ns| - 1], uid);
    }
  }

  /** GET notifications/: the user's notifications newest first, marked read, with the
      table marked read as well. */
  method ListNotifications(db: Database, uid: UserId) returns (listed: seq<Notification>)
    modifies db`notifications
    ensures db.notifications == ReadAll(old(db.notifications), uid)
    ensures listed == Reversed(Own(db.notifications, uid))
  {
    db.notifications := ReadAll(db.notifications, uid);
    listed := Reversed(Own(db.notifications, uid));
  }

  /** The list holds exactly the user's notifications, the newest first, each one read. */
  lemma ListShowsOwnNewestFirst(ns: seq<Notification>, uid: UserId)
    ensures var listed := Reversed(Own(ReadAll(ns, uid), uid));
            var own := Own(ns, uid);
            && |listed| == |own|
            && forall i :: 0 <= i < |listed| ==>
                 listed[i] == own[|own| - 1 - i].(isRead := true) && listed[i].user == uid && listed[i].isRead
  {
    var own := Own(ns, uid);
    var after := Own(ReadAll(ns, uid), uid);
    var listed := Reversed(after);
    OwnAfterReadAll(ns, uid);
    forall i | 0 <= i < |listed|
      ensures listed[i] == own[|own| - 1 - i].(isRead := true) && listed[i].user == uid && listed[i].isRead
    {
      assert listed[i] == after[|after| - 1 - i];
    }
  }

  /** PATCH notifications/mark-all-read/ */
  method MarkAllAsRead(db: Database, uid: UserId) returns (r: Response)
    requires db.NotificationsValid()
    modifies db`notifications
    ensures db.NotificationsValid()
    ensures db.notifications == ReadAll(old(db.notifications), uid)
    ensures UnreadCount(db.notifications, uid) == 0
    ensures r == Response(200, AllMarkedRead)
  {
    ReadAllKeepsIds(db.notifications, uid, db.nextNotificationId);
    ReadAllClearsCount(db.notifications, uid);
    db.notifications := ReadAll(db.notifications, uid);
    r := Response(200, AllMarkedRead);
  }

  // ---------------------------------------------------------------- deleting

  predicate Owns(ns: seq<Notification>, uid: UserId, pk: nat) {
    exists i :: 0 <= i < |ns| && ns[i].id == pk && ns[i].user == uid
  }

  /** The table without the row whose key is `pk`. */
  function Without(ns: seq<Notification>, pk: nat): (r: seq<Notification>)
    ensures |r| <= |ns|
  {
    if ns == [] then []
    else Without(ns[..|ns| - 1], pk) + (if ns[|ns| - 1].id == pk then [] else [ns[|ns| - 1]])
  }

  /** Deleting keeps every other row, in order, and removes every row with that key. */
  lemma {:induction false} WithoutKeepsOthers(ns: seq<Notification>, pk: nat)
    ensures forall n :: n in Without(ns, pk) <==> n in ns && n.id != pk
  {
    if ns != [] {
      WithoutKeepsOthers(ns[..|ns| - 1], pk);
      assert ns == ns[..|ns| - 1] + [ns[|ns| - 1]];
    }
  }

  /** Under unique ids exactly one row goes. */
  lemma {:induction false} WithoutRemovesOne(ns: seq<Notification>, pk: nat, i: nat)
    requires UniqueNotificationIds(ns) && i < |ns| && ns[i].id == pk
    ensures |Without(ns, pk)| == |ns| - 1
  {
    var init := ns[..|ns| - 1];
    if i == |ns| - 1 {
      WithoutKeepsAll(init, pk);
    } else {
      WithoutRemovesOne(init, pk, i);
    }
  }

  lemma {:induction false} WithoutKeepsAll(ns: seq<Notification>, pk: nat)
    requires forall i :: 0 <= i < |ns| ==> ns[i].id != pk
    ensures Without(ns, pk) == ns
  {
    if ns != [] {
      WithoutKeepsAll(ns[..|ns| - 1], pk);
      assert ns == ns[..|ns| - 1] + [ns[|ns| - 1]];
    }
  }

  /** DELETE notifications/<pk>/: only the owner's own row; anyone else gets 404. */
  method DeleteNotification(db: Database, uid: UserId, pk: nat) returns (r: Response)
    modifies db`notifications
    ensures Owns(old(db.notifications), uid, pk) ==>
              db.notifications == Without(old(db.notifications), pk) && r == Response(204, NotificationDeleted)
    ensures !Owns(old(db.notifications), uid, pk) ==>
              db.notifications == old(db.notifications) && r == Response(404, NotFound)
  {
    if !Owns(db.notifications, uid, pk) {
      return Response(404, NotFound);
    }
    db.notifications := Without(db.notifications, pk);
    r := Response(204, NotificationDeleted);
  }

  /** A delete that succeeds removes exactly the one row, keeps every other, and keeps the
      table's ids valid. */
  lemma DeleteRemovesExactlyOne(ns: seq<Notification>, next: nat, uid: UserId, pk: nat)
    requires forall i :: 0 <= i < |ns| ==> ns[i].id < next
    requires UniqueNotificationIds(ns) && Owns(ns, uid, pk)
    ensures |Without(ns, pk)| == |ns| - 1
    ensures forall n :: n in Without(ns, pk) <==> n in ns && n.id != pk
    ensures forall i :: 0 <= i < |Without(ns, pk)| ==> Without(ns, pk)[i].id < next
  {
    var i :| 0 <= i < |ns| && ns[i].id == pk && ns[i].user == uid;
    WithoutRemovesOne(ns, pk, i);
    WithoutKeepsOthers(ns, pk);
    forall k | 0 <= k < |Without(ns, pk)| ensures Without(ns, pk)[k].id < next {
      assert Without(ns, pk)[k] in ns;
    }
  }

  // ---------------------------------------------------------------- the websocket

  class NotificationConsumer {
    /** `scope["user"]`: None for an anonymous connection. */
    const user: Option<UserId>
    /** `self.channel_name` */
    const conn: ConnId
    var accepted: bool
    var closed: bool
    /** The frames sent down the socket. */
    var outbox: seq<Frame>

    constructor (user: Option<UserId>, conn: ConnId)
      ensures this.user == user && this.conn == conn
      ensures !accepted && !closed && outbox == []
    {
      this.user := user;
      this.conn := conn;
      accepted, closed, outbox := false, false, [];
    }

    /** A signed-in user's socket joins `user_{id}` and is accepted; any other is closed. */
    method Connect(layer: ChannelLayer)
      modifies this`accepted, this`closed, layer`groups
      ensures user.Some? ==> layer.groups == old(layer.groups)[UserGroup(user.value) := Members(old(layer.groups), UserGroup(user.value)) + {conn}]
                             && accepted && closed == old(closed)
      ensures user.None? ==> layer.groups == old(layer.groups) && closed && accepted == old(accepted)
    {
      if user.Some? {
        layer.GroupAdd(UserGroup(user.value), conn);
        accepted := true;
      } else {
        closed := true;
      }
    }

    method Disconnect(layer: ChannelLayer)
      modifies layer`groups
      ensures user.Some? ==> layer.groups == if UserGroup(user.value) in old(layer.groups)
                                             then old(layer.groups)[UserGroup(user.value) := old(layer.groups)[UserGroup(user.value)] - {conn}]
                                             else old(layer.groups)
      ensures user.None? ==> layer.groups == old(layer.groups)
    {
      if user.Some? {
        layer.GroupDiscard(UserGroup(user.value), conn);
      }
    }

    /** The `send_notification` handler: the event's message, alone, goes down the socket. */
    method SendNotificationHandler(message: string)
      modifies this`outbox
      ensures outbox == old(outbox) + [NoteFrame(message)]
    {
      outbox := outbox + [NoteFrame(message)];
    }
  }

  /** A signed-in user's socket receives each later notification for that user, and an
      anonymous one never joins any group. */
  lemma ConnectedUserReceives(groups: map<string, set<ConnId>>, queues: map<ConnId, seq<Event>>,
                              uid: UserId, c: ConnId, n: Note)
    requires n.user == uid
    ensures var joined := groups[UserGroup(uid) := Members(groups, UserGroup(uid)) + {c}];
            Queue(SendAll(joined, queues, Pushes([n])), c) == Queue(queues, c) + [SendNotification(n.message)]
  {
    var joined := groups[UserGroup(uid) := Members(groups, UserGroup(uid)) + {c}];
    NoteReachesOnlyItsUser(joined, queues, n, c);
  }
}

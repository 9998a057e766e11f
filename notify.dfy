/** `send_notification` (teams/views.py): every notification is first stored as a
    Notification row and then published to the recipient's `user_{id}` group. */
module Notify {
  import opened Common
  import opened Schema
  import opened ChannelLayer

  /** One call of `send_notification(user, message)`. */
  datatype Note = Note(user: UserId, message: string)

  function NoteRow(id: nat, n: Note): Notification {
    Notification(id, n.user, n.message, false)
  }

  function NotePush(n: Note): (string, Event) {
    (UserGroup(n.user), SendNotification(n.message))
  }

  /** The rows a run of notes stores, with ids handed out from `next` on, unread. */
  function Rows(next: nat, notes: seq<Note>): (rows: seq<Notification>)
    ensures |rows| == |notes|
  {
    if notes == [] then []
    else Rows(next, notes[..|notes| - 1]) + [NoteRow(next + |notes| - 1, notes[|notes| - 1])]
  }

  /** The `group_send` calls a run of notes makes. */
  function Pushes(notes: seq<Note>): (sends: seq<(string, Event)>)
    ensures |sends| == |notes|
  {
    if notes == [] then [] else Pushes(notes[..|notes| - 1]) + [NotePush(notes[|notes| - 1])]
  }

  /** The i-th stored row is the i-th note, under id `next + i`. */
  lemma {:induction false} RowsAt(next: nat, notes: seq<Note>, i: nat)
    requires i < |notes|
    ensures Rows(next, notes)[i] == NoteRow(next + i, notes[i])
  {
    if i < |notes| - 1 {
      RowsAt(next, notes[..|notes| - 1], i);
    }
  }

  /** The i-th publish goes to the i-th note's user. */
  lemma {:induction false} PushesAt(notes: seq<Note>, i: nat)
    requires i < |notes|
    ensures Pushes(notes)[i] == NotePush(notes[i])
  {
    if i < |notes| - 1 {
      PushesAt(notes[..|notes| - 1], i);
    }
  }

  /** A notification reaches exactly the connections subscribed to its recipient's group. */
  lemma {:induction false} NoteReachesOnlyItsUser(groups: map<string, set<ConnId>>, queues: map<ConnId, seq<Event>>,
                                                  n: Note, c: ConnId)
    ensures c in Members(groups, UserGroup(n.user)) ==>
              Queue(SendAll(groups, queues, Pushes([n])), c) == Queue(queues, c) + [SendNotification(n.message)]
    ensures c !in Members(groups, UserGroup(n.user)) ==>
              Queue(SendAll(groups, queues, Pushes([n])), c) == Queue(queues, c)
  {
    var p := Pushes([n]);
    assert [n][..0] == [];
    SendAllDeliversInOrder(groups, queues, p, c);
  }

  /** Appending fresh rows keeps notification ids handed out and unique. */
  lemma RowsKeepIdsUnique(ns: seq<Notification>, next: nat, notes: seq<Note>)
    requires forall i :: 0 <= i < |ns| ==> ns[i].id < next
    requires UniqueNotificationIds(ns)
    ensures var all := ns + Rows(next, notes);
            && (forall i :: 0 <= i < |all| ==> all[i].id < next + |notes|)
            && UniqueNotificationIds(all)
  {
    var all := ns + Rows(next, notes);
    forall i | 0 <= i < |all| ensures all[i].id < next + |notes| {
      if i >= |ns| {
        RowsAt(next, notes, i - |ns|);
      }
    }
    forall i, j | 0 <= i < j < |all| ensures all[i].id != all[j].id {
      if j >= |ns| {
        RowsAt(next, notes, j - |ns|);
        if i >= |ns| {
          RowsAt(next, notes, i - |ns|);
        }
      }
    }
  }

  lemma {:induction false} RowsAppend(next: nat, a: seq<Note>, b: seq<Note>)
    ensures Rows(next, a + b) == Rows(next, a) + Rows(next + |a|, b)
    decreases |b|
  {
    if b == [] {
      assert a + b == a;
    } else {
      assert (a + b)[..|a + b| - 1] == a + b[..|b| - 1];
      RowsAppend(next, a, b[..|b| - 1]);
    }
  }

  lemma {:induction false} PushesAppend(a: seq<Note>, b: seq<Note>)
    ensures Pushes(a + b) == Pushes(a) + Pushes(b)
    decreases |b|
  {
    if b == [] {
      assert a + b == a;
    } else {
      assert (a + b)[..|a + b| - 1] == a + b[..|b| - 1];
      PushesAppend(a, b[..|b| - 1]);
    }
  }

  /** The notes stored and published between two states: the rows appended in order with
      fresh ids, and each note's event delivered to its recipient's group. */
  ghost predicate Delivered(db: Database, layer: ChannelLayer, before: seq<Notification>, next: nat,
                            queues: map<ConnId, seq<Event>>, notes: seq<Note>)
    reads db`notifications, db`nextNotificationId, layer`groups, layer`queues
  {
    && db.notifications == before + Rows(next, notes)
    && db.nextNotificationId == next + |notes|
    && layer.queues == SendAll(layer.groups, queues, Pushes(notes))
  }

  /** Nothing stored and nothing published. */
  lemma NothingDelivered(db: Database, layer: ChannelLayer)
    ensures Delivered(db, layer, db.notifications, db.nextNotificationId, layer.queues, [])
  {
  }

  /** Two deliveries in a row are one delivery of the notes of both. */
  lemma DeliveredAppend(db: Database, layer: ChannelLayer, before: seq<Notification>, next: nat,
                        queues: map<ConnId, seq<Event>>, a: seq<Note>, mid: seq<Notification>, midNext: nat,
                        midQueues: map<ConnId, seq<Event>>, b: seq<Note>)
    requires mid == before + Rows(next, a) && midNext == next + |a|
    requires midQueues == SendAll(layer.groups, queues, Pushes(a))
    requires Delivered(db, layer, mid, midNext, midQueues, b)
    ensures Delivered(db, layer, before, next, queues, a + b)
  {
    RowsAppend(next, a, b);
    assert db.notifications == before + Rows(next, a + b) by {
      assert db.notifications == (before + Rows(next, a)) + Rows(next + |a|, b);
    }
    PushesAppend(a, b);
    SendAllAppend(layer.groups, queues, Pushes(a), Pushes(b));
    assert layer.queues == SendAll(layer.groups, queues, Pushes(a + b));
  }

  /** `send_notification(user, message)`: the row first, then the publish. */
  method Send(db: Database, layer: ChannelLayer, n: Note)
    requires db.NotificationsValid()
    modifies db`notifications, db`nextNotificationId, layer`queues
    ensures db.NotificationsValid()
    ensures Delivered(db, layer, old(db.notifications), old(db.nextNotificationId), old(layer.queues), [n])
  {
    RowsKeepIdsUnique(db.notifications, db.nextNotificationId, [n]);
    db.notifications := db.notifications + [Notification(db.nextNotificationId, n.user, n.message, false)];
    db.nextNotificationId := db.nextNotificationId + 1;
    assert [n][..0] == [];
    layer.GroupSend(UserGroup(n.user), SendNotification(n.message));
  }

  /** `send_notification` for each note in turn. */
  method SendEach(db: Database, layer: ChannelLayer, notes: seq<Note>)
    requires db.NotificationsValid()
    modifies db`notifications, db`nextNotificationId, layer`queues
    ensures db.NotificationsValid()
    ensures Delivered(db, layer, old(db.notifications), old(db.nextNotificationId), old(layer.queues), notes)
  {
    var i := 0;
    while i < |notes|
      invariant 0 <= i <= |notes|
      invariant db.NotificationsValid()
      invariant Delivered(db, layer, old(db.notifications), old(db.nextNotificationId), old(layer.queues), notes[..i])
    {
      SendNext(db, layer, old(db.notifications), old(db.nextNotificationId), old(layer.queues), notes, i);
      i := i + 1;
    }
    assert notes[..i] == notes;
  }

  /** One turn of SendEach: the i-th note goes out after the first i. */
  method SendNext(db: Database, layer: ChannelLayer, ghost before: seq<Notification>, ghost next: nat,
                  ghost queues: map<ConnId, seq<Event>>, notes: seq<Note>, i: nat)
    requires i < |notes| && db.NotificationsValid()
    requires Delivered(db, layer, before, next, queues, notes[..i])
    modifies db`notifications, db`nextNotificationId, layer`queues
    ensures db.NotificationsValid()
    ensures Delivered(db, layer, before, next, queues, notes[..i + 1])
  {
    ghost var mid, midNext, midQueues := db.notifications, db.nextNotificationId, layer.queues;
    Send(db, layer, notes[i]);
    DeliveredAppend(db, layer, before, next, queues, notes[..i], mid, midNext, midQueues, [notes[i]]);
    assert notes[..i] + [notes[i]] == notes[..i + 1];
  }
}

/** The Channels layer that chat/consumers.py, notifications/consumers.py and
    teams/views.py talk to: named groups of connections, and one delivery
    queue per connection. `group_send` delivers to the connections in the group
    at the moment of the send. Transport, back-pressure and expiry are not modelled. */
module ChannelLayer {
  import opened Common

  /** A connection's `channel_name`. */
  type ConnId = nat

  /** The event dictionaries passed to `group_send`; the constructor is the "type" key. */
  datatype Event =
    | SendNotification(message: string)
    | ChatMessage(message: string, sender: string, timestamp: Time, chatId: string)
    | UserTyping(user: string)

  /** What a consumer writes to its websocket: the keys of the JSON object it sends. */
  datatype Frame =
    | NoteFrame(message: string)
    | ChatFrame(message: string, sender: string, timestamp: Time, chatId: string)
    | TypingFrame(user: string)

  function Members(groups: map<string, set<ConnId>>, g: string): set<ConnId> {
    if g in groups then groups[g] else {}
  }

  function Queue(queues: map<ConnId, seq<Event>>, c: ConnId): seq<Event> {
    if c in queues then queues[c] else []
  }

  /** One `group_send`: every subscriber's queue grows by the event, nobody else's changes. */
  function Fanout(queues: map<ConnId, seq<Event>>, subscribers: set<ConnId>, e: Event): (q: map<ConnId, seq<Event>>)
    ensures q.Keys == queues.Keys + subscribers
    ensures forall c :: c in subscribers ==> Queue(q, c) == Queue(queues, c) + [e]
    ensures forall c :: c !in subscribers ==> Queue(q, c) == Queue(queues, c)
  {
    map c | c in queues.Keys + subscribers :: if c in subscribers then Queue(queues, c) + [e] else queues[c]
  }

  /** A run of `group_send` calls, in order, while the groups stay as they are. */
  function SendAll(groups: map<string, set<ConnId>>, queues: map<ConnId, seq<Event>>, sends: seq<(string, Event)>): map<ConnId, seq<Event>>
  {
    if sends == [] then queues
    else
      var last := sends[|sends| - 1];
      Fanout(SendAll(groups, queues, sends[..|sends| - 1]), Members(groups, last.0), last.1)
  }

  /** The events among `sends` that connection `c` is subscribed to receive, in send order. */
  function Received(groups: map<string, set<ConnId>>, sends: seq<(string, Event)>, c: ConnId): seq<Event>
  {
    if sends == [] then []
    else
      var last := sends[|sends| - 1];
      Received(groups, sends[..|sends| - 1], c) + (if c in Members(groups, last.0) then [last.1] else [])
  }

  /** FIFO per connection: after a run of sends each connection holds exactly the
      events addressed to its groups, in the order they were sent, after what it had. */
  lemma {:induction false} SendAllDeliversInOrder(groups: map<string, set<ConnId>>, queues: map<ConnId, seq<Event>>,
                                                  sends: seq<(string, Event)>, c: ConnId)
    ensures Queue(SendAll(groups, queues, sends), c) == Queue(queues, c) + Received(groups, sends, c)
  {
    if sends != [] {
      SendAllDeliversInOrder(groups, queues, sends[..|sends| - 1], c);
    }
  }

  /** Isolation: a connection that is in none of the addressed groups receives nothing. */
  lemma {:induction false} SendAllIsolation(groups: map<string, set<ConnId>>, queues: map<ConnId, seq<Event>>,
                                            sends: seq<(string, Event)>, c: ConnId)
    requires forall k :: 0 <= k < |sends| ==> c !in Members(groups, sends[k].0)
    ensures Queue(SendAll(groups, queues, sends), c) == Queue(queues, c)
  {
    if sends != [] {
      SendAllIsolation(groups, queues, sends[..|sends| - 1], c);
    }
  }

  lemma SendAllSnoc(groups: map<string, set<ConnId>>, queues: map<ConnId, seq<Event>>,
                    sends: seq<(string, Event)>, s: (string, Event))
    ensures SendAll(groups, queues, sends + [s]) == Fanout(SendAll(groups, queues, sends), Members(groups, s.0), s.1)
  {
    assert (sends + [s])[..|sends|] == sends;
  }

  /** Two runs of sends one after the other are one run of their concatenation. */
  lemma {:induction false} SendAllAppend(groups: map<string, set<ConnId>>, queues: map<ConnId, seq<Event>>,
                                         first: seq<(string, Event)>, second: seq<(string, Event)>)
    ensures SendAll(groups, queues, first + second) == SendAll(groups, SendAll(groups, queues, first), second)
  {
    if second != [] {
      var last := second[|second| - 1];
      assert (first + second)[..|first + second| - 1] == first + second[..|second| - 1];
      SendAllAppend(groups, queues, first, second[..|second| - 1]);
    } else {
      assert first + second == first;
    }
  }

  class ChannelLayer {
    var groups: map<string, set<ConnId>>
    var queues: map<ConnId, seq<Event>>

    constructor ()
      ensures groups == map[] && queues == map[]
    {
      groups := map[];
      queues := map[];
    }

    /** `group_add(group, channel_name)` */
    method GroupAdd(g: string, c: ConnId)
      modifies this`groups
      ensures groups == old(groups)[g := Members(old(groups), g) + {c}]
    {
      groups := groups[g := Members(groups, g) + {c}];
    }

    /** `group_discard(group, channel_name)`: removing an absent connection is a no-op. */
    method GroupDiscard(g: string, c: ConnId)
      modifies this`groups
      ensures g in old(groups) ==> groups == old(groups)[g := old(groups)[g] - {c}]
      ensures g !in old(groups) ==> groups == old(groups)
    {
      if g in groups {
        groups := groups[g := groups[g] - {c}];
      }
    }

    /** `group_send(group, event)` */
    method GroupSend(g: string, e: Event)
      modifies this`queues
      ensures queues == Fanout(old(queues), Members(groups, g), e)
    {
      queues := Fanout(queues, Members(groups, g), e);
    }
  }

  /** A connection added to a group receives the next event sent to it; once discarded, it receives none. */
  lemma SubscriptionDecidesDelivery(groups: map<string, set<ConnId>>, queues: map<ConnId, seq<Event>>,
                                    g: string, c: ConnId, e: Event)
    ensures var added := groups[g := Members(groups, g) + {c}];
            Queue(Fanout(queues, Members(added, g), e), c) == Queue(queues, c) + [e]
    ensures var removed := groups[g := Members(groups, g) - {c}];
            Queue(Fanout(queues, Members(removed, g), e), c) == Queue(queues, c)
  {
  }
}

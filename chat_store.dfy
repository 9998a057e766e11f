/** The client's chat store, in its two copies: src/store/chat.ts, which turns every chat id
    into its string with `toString()`, and diploMatch/src/store/chat.ts, which indexes the
    objects with the id itself. Each keeps per-chat message lists, unread counters and the
    last message, plus the modal flag. */
module ChatStore {
  import opened Common

  /** A chat id as the components pass it: a number, a string, or null. */
  datatype ChatKey = Num(n: nat) | Str(s: string) | Null

  /** A message as the store keeps it; further keys of the payload are not modelled. */
  datatype ChatMessage = ChatMessage(content: string, timestamp: string, senderId: Option<nat>)

  /** What `setLastMessage` keeps of a message. */
  datatype LastMessage = LastMessage(content: string, timestamp: string)

  /** `chatId.toString()`: None where it throws, on null. */
  function Normalised(k: ChatKey): (r: Option<string>)
    ensures r.None? <==> k == Null
  {
    match k
    case Num(n) => Some(NatToString(n))
    case Str(s) => Some(s)
    case Null => None
  }

  /** The property key JavaScript derives from `obj[chatId]`: `String(chatId)`. */
  function PropertyKey(k: ChatKey): string {
    match k
    case Num(n) => NatToString(n)
    case Str(s) => s
    case Null => "null"
  }

  /** Indexing an object already turns the id into its string, so the two copies address
      the same entry for every id but null, where only the `toString()` copy throws. */
  lemma CopiesAgreeOnKeys(k: ChatKey)
    ensures k != Null ==> Normalised(k) == Some(PropertyKey(k))
    ensures k == Null ==> Normalised(k).None? && PropertyKey(k) == "null"
  {
  }

  /** 3 and "3" address the same entry, and two different numeric ids never share one. */
  lemma NumericKeys(m: nat, n: nat)
    ensures Normalised(Num(n)) == Normalised(Str(NatToString(n)))
    ensures m != n ==> PropertyKey(Num(m)) != PropertyKey(Num(n))
  {
    ParseNatToString(m);
    ParseNatToString(n);
  }

  /** `addMessage` on key `k`: its list, created empty when missing, gets `msg` at the end. */
  function Appended(lists: map<string, seq<ChatMessage>>, k: string, msg: ChatMessage): (r: map<string, seq<ChatMessage>>)
    ensures r.Keys == lists.Keys + {k}
    ensures r[k] == (if k in lists then lists[k] else []) + [msg]
    ensures forall j :: j in lists && j != k ==> r[j] == lists[j]
  {
    lists[k := (if k in lists then lists[k] else []) + [msg]]
  }

  /** The unread count of `k`, an absent entry counting as 0. */
  function UnreadOf(counts: map<string, nat>, k: string): nat {
    if k in counts then counts[k] else 0
  }

  /** `incrementUnread` on key `k`. */
  function Bumped(counts: map<string, nat>, k: string): (r: map<string, nat>)
    ensures r.Keys == counts.Keys + {k}
    ensures UnreadOf(r, k) == UnreadOf(counts, k) + 1
    ensures forall j :: j != k ==> UnreadOf(r, j) == UnreadOf(counts, j)
  {
    if k !in counts || counts[k] == 0 then counts[k := 1] else counts[k := counts[k] + 1]
  }

  /** Counting n messages from a reset gives n, and a reset after any count gives 0. */
  lemma {:induction false} BumpsCount(counts: map<string, nat>, k: string, n: nat)
    ensures UnreadOf(BumpedTimes(counts[k := 0], k, n), k) == n
    ensures UnreadOf(BumpedTimes(counts, k, n)[k := 0], k) == 0
  {
    if n > 0 {
      BumpsCount(counts, k, n - 1);
    }
  }

  /** `incrementUnread` applied n times. */
  function BumpedTimes(counts: map<string, nat>, k: string, n: nat): map<string, nat> {
    if n == 0 then counts else Bumped(BumpedTimes(counts, k, n - 1), k)
  }

  /** The store of src/store/chat.ts. */
  class Store {
    var isModalOpen: bool
    var activeChatId: Option<nat>
    var typingUser: Option<string>
    var messages: map<string, seq<ChatMessage>>
    var unreadCounts: map<string, nat>
    var lastMessages: map<string, LastMessage>

    constructor ()
      ensures !isModalOpen && activeChatId.None? && typingUser.None?
      ensures messages == map[] && unreadCounts == map[] && lastMessages == map[]
    {
      isModalOpen, activeChatId, typingUser := false, None, None;
      messages, unreadCounts, lastMessages := map[], map[], map[];
    }

    method ToggleModal()
      modifies this`isModalOpen
      ensures isModalOpen == !old(isModalOpen)
    {
      isModalOpen := !isModalOpen;
    }

    method OpenChatModal()
      modifies this`isModalOpen
      ensures isModalOpen
    {
      isModalOpen := true;
    }

    method CloseChatModal()
      modifies this`isModalOpen
      ensures !isModalOpen
    {
      isModalOpen := false;
    }

    method SetActiveChat(id: nat)
      modifies this`activeChatId
      ensures activeChatId == Some(id)
    {
      activeChatId := Some(id);
    }

    method ClearActiveChat()
      modifies this`activeChatId
      ensures activeChatId.None?
    {
      activeChatId := None;
    }

    method SetTypingUser(user: Option<string>)
      modifies this`typingUser
      ensures typingUser == user
    {
      typingUser := user;
    }

    /** Only the content and the timestamp are kept. */
    method SetLastMessage(chatId: ChatKey, msg: ChatMessage) returns (thrown: bool)
      modifies this`lastMessages
      ensures thrown <==> chatId == Null
      ensures thrown ==> lastMessages == old(lastMessages)
      ensures !thrown ==> lastMessages == old(lastMessages)[Normalised(chatId).value := LastMessage(msg.content, msg.timestamp)]
    {
      if chatId == Null {
        return true;
      }
      lastMessages := lastMessages[Normalised(chatId).value := LastMessage(msg.content, msg.timestamp)];
      thrown := false;
    }

    /** The chat's list is replaced wholesale. */
    method SetMessages(chatId: ChatKey, msgs: seq<ChatMessage>) returns (thrown: bool)
      modifies this`messages
      ensures thrown <==> chatId == Null
      ensures thrown ==> messages == old(messages)
      ensures !thrown ==> messages == old(messages)[Normalised(chatId).value := msgs]
    {
      if chatId == Null {
        return true;
      }
      messages := messages[Normalised(chatId).value := msgs];
      thrown := false;
    }

    method AddMessage(chatId: ChatKey, msg: ChatMessage) returns (thrown: bool)
      modifies this`messages
      ensures thrown <==> chatId == Null
      ensures thrown ==> messages == old(messages)
      ensures !thrown ==> messages == Appended(old(messages), Normalised(chatId).value, msg)
    {
      if chatId == Null {
        return true;
      }
      var id := Normalised(chatId).value;
      if id !in messages {
        messages := messages[id := []];
      }
      messages := messages[id := messages[id] + [msg]];
      thrown := false;
    }

    method IncrementUnread(chatId: ChatKey) returns (thrown: bool)
      modifies this`unreadCounts
      ensures thrown <==> chatId == Null
      ensures thrown ==> unreadCounts == old(unreadCounts)
      ensures !thrown ==> unreadCounts == Bumped(old(unreadCounts), Normalised(chatId).value)
    {
      if chatId == Null {
        return true;
      }
      var id := Normalised(chatId).value;
      if id !in unreadCounts || unreadCounts[id] == 0 {
        unreadCounts := unreadCounts[id := 1];
      } else {
        unreadCounts := unreadCounts[id := unreadCounts[id] + 1];
      }
      thrown := false;
    }

    method ResetUnread(chatId: ChatKey) returns (thrown: bool)
      modifies this`unreadCounts
      ensures thrown <==> chatId == Null
      ensures thrown ==> unreadCounts == old(unreadCounts)
      ensures !thrown ==> unreadCounts == old(unreadCounts)[Normalised(chatId).value := 0]
    {
      if chatId == Null {
        return true;
      }
      unreadCounts := unreadCounts[Normalised(chatId).value := 0];
      thrown := false;
    }
  }

  /** The store of diploMatch/src/store/chat.ts: the same actions, indexing with the id. */
  class UntypedStore {
    var isModalOpen: bool
    var activeChatId: Option<nat>
    var typingUser: Option<string>
    var messages: map<string, seq<ChatMessage>>
    var unreadCounts: map<string, nat>
    var lastMessages: map<string, LastMessage>

    constructor ()
      ensures !isModalOpen && activeChatId.None? && typingUser.None?
      ensures messages == map[] && unreadCounts == map[] && lastMessages == map[]
    {
      isModalOpen, activeChatId, typingUser := false, None, None;
      messages, unreadCounts, lastMessages := map[], map[], map[];
    }

    method ToggleModal()
      modifies this`isModalOpen
      ensures isModalOpen == !old(isModalOpen)
    {
      isModalOpen := !isModalOpen;
    }

    method OpenChatModal()
      modifies this`isModalOpen
      ensures isModalOpen
    {
      isModalOpen := true;
    }

    method CloseChatModal()
      modifies this`isModalOpen
      ensures !isModalOpen
    {
      isModalOpen := false;
    }

    method SetActiveChat(id: nat)
      modifies this`activeChatId
      ensures activeChatId == Some(id)
    {
      activeChatId := Some(id);
    }

    method ClearActiveChat()
      modifies this`activeChatId
      ensures activeChatId.None?
    {
      activeChatId := None;
    }

    method SetTypingUser(user: Option<string>)
      modifies this`typingUser
      ensures typingUser == user
    {
      typingUser := user;
    }

    method SetLastMessage(chatId: ChatKey, msg: ChatMessage)
      modifies this`lastMessages
      ensures lastMessages == old(lastMessages)[PropertyKey(chatId) := LastMessage(msg.content, msg.timestamp)]
    {
      lastMessages := lastMessages[PropertyKey(chatId) := LastMessage(msg.content, msg.timestamp)];
    }

    method SetMessages(chatId: ChatKey, msgs: seq<ChatMessage>)
      modifies this`messages
      ensures messages == old(messages)[PropertyKey(chatId) := msgs]
    {
      messages := messages[PropertyKey(chatId) := msgs];
    }

    method AddMessage(chatId: ChatKey, msg: ChatMessage)
      modifies this`messages
      ensures messages == Appended(old(messages), PropertyKey(chatId), msg)
    {
      var id := PropertyKey(chatId);
      if id !in messages {
        messages := messages[id := []];
      }
      messages := messages[id := messages[id] + [msg]];
    }

    method IncrementUnread(chatId: ChatKey)
      modifies this`unreadCounts
      ensures unreadCounts == Bumped(old(unreadCounts), PropertyKey(chatId))
    {
      var id := PropertyKey(chatId);
      if id !in unreadCounts || unreadCounts[id] == 0 {
        unreadCounts := unreadCounts[id := 1];
      } else {
        unreadCounts := unreadCounts[id := unreadCounts[id] + 1];
      }
    }

    method ResetUnread(chatId: ChatKey)
      modifies this`unreadCounts
      ensures unreadCounts == old(unreadCounts)[PropertyKey(chatId) := 0]
    {
      unreadCounts := unreadCounts[PropertyKey(chatId) := 0];
    }
  }
}

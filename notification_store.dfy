/** The client's unread-notification counter (src/store/notifications.ts). */
module NotificationStore {
  class NotificationCounter {
    var unreadCount: int

    constructor ()
      ensures unreadCount == 0
    {
      unreadCount := 0;
    }

    method SetCount(count: int)
      modifies this`unreadCount
      ensures unreadCount == count
    {
      unreadCount := count;
    }

    method Increment()
      modifies this`unreadCount
      ensures unreadCount == old(unreadCount) + 1
    {
      unreadCount := unreadCount + 1;
    }

    method Reset()
      modifies this`unreadCount
      ensures unreadCount == 0
    {
      unreadCount := 0;
    }
  }
}

/** The `ChatNotificationManager` of the browser client: per-room unread counts, the
    two-second throttle on new-message notifications, the total shown in the tab title and
    the per-room badge text. Browser notifications, sounds, toasts and settings storage are
    left out; a room id is `None` when the message carries none. */
module Notifications {
  import opened Wrappers
  import opened Text
  import opened Collections

  type RoomKey = Option<int>

  const NotificationThrottle: int := 2000

  const OriginalTitle: string := "チャット - チャットアプリ"

  /** The fields of a received chat message that matter here. */
  datatype ChatMessage = ChatMessage(chatRoomId: Option<int>, roomId: Option<int>, senderUsername: string)

  /** `message.chatRoomId || message.roomId`: a missing or zero `chatRoomId` falls back to `roomId`. */
  function MessageRoomId(m: ChatMessage): (r: RoomKey)
    ensures m.chatRoomId.Some? && m.chatRoomId.value != 0 ==> r == m.chatRoomId
    ensures m.chatRoomId.None? || m.chatRoomId == Some(0) ==> r == m.roomId
  {
    if m.chatRoomId.Some? && m.chatRoomId.value != 0 then m.chatRoomId else m.roomId
  }

  /** `updateTabTitle`: "(N) " before the page title while anything is unread. */
  function TabTitle(totalUnread: nat): (r: string)
    ensures totalUnread == 0 ==> r == OriginalTitle
    ensures totalUnread > 0 ==> r == "(" + NatToString(totalUnread) + ") " + OriginalTitle
    ensures (r[0] == '(') <==> totalUnread > 0
  {
    if totalUnread > 0 then "(" + NatToString(totalUnread) + ") " + OriginalTitle else OriginalTitle
  }

  /** The title gives the count back: the digits between the parentheses read as `N`. */
  lemma TabTitleShowsCount(totalUnread: nat)
    requires totalUnread > 0
    ensures var t := TabTitle(totalUnread);
            var digits := t[1..1 + |NatToString(totalUnread)|];
            (forall i :: 0 <= i < |digits| ==> IsDigit(digits[i])) && DigitsValue(digits) == totalUnread
  {
    var d := NatToString(totalUnread);
    var t := TabTitle(totalUnread);
    SecondPart("(", d, ") ", OriginalTitle);
    assert t[1..1 + |d|] == d;
    DigitsValueOfNatToString(totalUnread);
  }

  lemma SecondPart(a: string, b: string, c: string, d: string)
    ensures (a + b + c + d)[|a|..|a| + |b|] == b
  {
    assert (a + b + c + d)[|a|..|a| + |b|] == (a + b)[|a|..];
  }

  /** `updateUnreadBadge`: no badge for 0, "99+" above 99, else the count. */
  function BadgeText(count: nat): (r: Option<string>)
    ensures r.None? <==> count == 0
    ensures count > 99 ==> r == Some("99+")
    ensures 0 < count <= 99 ==> r == Some(NatToString(count))
  {
    if count == 0 then None
    else if count > 99 then Some("99+")
    else Some(NatToString(count))
  }

  lemma {:induction false} ShortNumbers(n: nat)
    requires n <= 99
    ensures |NatToString(n)| <= 2
  {
    if n >= 10 {
      assert NatToString(n / 10) == [DigitChar(n / 10)];
    }
  }

  /** The badge reads "99+" exactly when the count is above 99. */
  lemma BadgeCapsAt99(count: nat)
    requires count > 0
    ensures BadgeText(count) == Some("99+") <==> count > 99
  {
    if count <= 99 {
      ShortNumbers(count);
    }
  }

  class ChatNotificationManager {
    var unreadCounts: map<RoomKey, nat>
    var lastNotificationTime: int
    var title: string

    /** The title always shows the current total. */
    ghost predicate Valid()
      reads this
    {
      title == TabTitle(Total(unreadCounts))
    }

    constructor ()
      ensures Valid() && unreadCounts == map[] && lastNotificationTime == 0
    {
      unreadCounts := map[];
      lastNotificationTime := 0;
      title := OriginalTitle;
    }

    /** `getUnreadCount`: 0 for a room without unread messages. */
    function GetUnreadCount(roomId: RoomKey): (r: nat)
      reads this
      ensures roomId in unreadCounts ==> r == unreadCounts[roomId]
      ensures roomId !in unreadCounts ==> r == 0
    {
      if roomId in unreadCounts then unreadCounts[roomId] else 0
    }

    /** `getTotalUnreadCount`: the sum of all room counts. */
    method GetTotalUnreadCount() returns (total: nat)
      ensures total == Total(unreadCounts)
    {
      total := 0;
      var rest := unreadCounts;
      while rest != map[]
        invariant total + Total(rest) == Total(unreadCounts)
        decreases |rest.Keys|
      {
        var k :| k in rest;
        TotalRemove(rest, k);
        total := total + rest[k];
        assert (rest - {k}).Keys == rest.Keys - {k};
        rest := rest - {k};
      }
    }

    /** `updateTabTitle`: the title is recomputed from the total. */
    method UpdateTabTitle()
      modifies this
      ensures Valid()
      ensures unreadCounts == old(unreadCounts) && lastNotificationTime == old(lastNotificationTime)
    {
      var total := GetTotalUnreadCount();
      title := TabTitle(total);
    }

    /** `incrementUnreadCount`: one more unread message in that room, none elsewhere; the
        title follows the new total. */
    method IncrementUnreadCount(roomId: RoomKey)
      requires Valid()
      modifies this
      ensures Valid()
      ensures unreadCounts == old(unreadCounts)[roomId := old(GetUnreadCount(roomId)) + 1]
      ensures Total(unreadCounts) == Total(old(unreadCounts)) + 1
      ensures lastNotificationTime == old(lastNotificationTime)
    {
      TotalIncrement(unreadCounts, roomId);
      unreadCounts := unreadCounts[roomId := GetUnreadCount(roomId) + 1];
      UpdateTabTitle();
    }

    /** `clearUnreadCount`: the room's count is dropped, so it reads 0 afterwards. */
    method ClearUnreadCount(roomId: RoomKey)
      requires Valid()
      modifies this
      ensures Valid()
      ensures unreadCounts == old(unreadCounts) - {roomId}
      ensures GetUnreadCount(roomId) == 0
      ensures Total(unreadCounts) == Total(old(unreadCounts)) - old(GetUnreadCount(roomId))
      ensures lastNotificationTime == old(lastNotificationTime)
    {
      if roomId in unreadCounts {
        TotalRemove(unreadCounts, roomId);
      } else {
        assert unreadCounts - {roomId} == unreadCounts;
      }
      unreadCounts := unreadCounts - {roomId};
      UpdateTabTitle();
    }

    /** `notifyNewMessage`: a message for the open room or from the current user, or one
        arriving within 2000 ms of the last notification, changes nothing; otherwise the
        time is recorded and the message's room gains an unread message. Returns whether
        it notified. */
    method NotifyNewMessage(message: ChatMessage, currentRoomId: RoomKey, currentUser: string, now: int)
      returns (notified: bool)
      requires Valid()
      modifies this
      ensures Valid()
      ensures notified <==> MessageRoomId(message) != currentRoomId && message.senderUsername != currentUser
                            && now - old(lastNotificationTime) >= NotificationThrottle
      ensures !notified ==> unreadCounts == old(unreadCounts) && lastNotificationTime == old(lastNotificationTime)
      ensures notified ==> lastNotificationTime == now
                           && unreadCounts == old(unreadCounts)[MessageRoomId(message) := old(GetUnreadCount(MessageRoomId(message))) + 1]
    {
      var messageRoomId := MessageRoomId(message);
      if messageRoomId == currentRoomId {
        return false;
      }
      if message.senderUsername == currentUser {
        return false;
      }
      if now - lastNotificationTime < NotificationThrottle {
        return false;
      }
      lastNotificationTime := now;
      IncrementUnreadCount(messageRoomId);
      notified := true;
    }
  }
}

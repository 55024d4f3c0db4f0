/** `DirectMessageService`: conversations between two users, stored once per pair with
    the smaller id first; sending a message with its receiver and the conversation's
    last-message summary; the participant guards of the listings; unread counts and
    marking a conversation read. The user table is a set of ids; the friend list comes
    from the friendship service as a set of ids. */
module DirectMessages {
  import opened Wrappers
  import opened Ids
  import opened Collections
  import opened DirectConversations

  type MessageId = nat

  datatype DirectMessage = DirectMessage(id: MessageId, conversationId: ConversationId, sender: UserId,
                                         receiver: UserId, content: string, sentAt: Millis, isRead: bool,
                                         readAt: Option<Millis>)

  datatype DmError =
    | UserNotFound(user: UserId)
    | ConversationNotFound(conversation: ConversationId)
    | SenderNotInConversation
    | AccessDenied
    | NonUniqueResult

  /** A conversation between `a` and `b`, in either order. */
  predicate Between(c: Conversation, a: UserId, b: UserId) {
    (c.user1 == Some(a) && c.user2 == Some(b)) || (c.user1 == Some(b) && c.user2 == Some(a))
  }

  /** `findByUsers`: the conversations between the two users, in either order. */
  function FindByUsers(convs: seq<Conversation>, a: UserId, b: UserId): (r: Unique<Conversation>)
    ensures r.OneRow? ==> r.row in convs && Between(r.row, a, b)
    ensures r.NoRow? <==> forall c :: c in convs ==> !Between(c, a, b)
  {
    var found := Filter(convs, c => Between(c, a, b));
    assert found != [] ==> found[0] in found;
    UniqueRow(found)
  }

  /** The lookup does not depend on the order of the two users. */
  lemma FindByUsersSymmetric(convs: seq<Conversation>, a: UserId, b: UserId)
    ensures FindByUsers(convs, a, b) == FindByUsers(convs, b, a)
  {
    FilterCongruent(convs, c => Between(c, a, b), c => Between(c, b, a));
  }

  /** `findById` over the conversation table. */
  function FindConversation(convs: seq<Conversation>, id: ConversationId): (r: Option<Conversation>)
    ensures r.Some? ==> r.value in convs && r.value.id == id
    ensures r.None? ==> forall c :: c in convs ==> c.id != id
  {
    if convs == [] then None
    else if convs[0].id == id then Some(convs[0])
    else FindConversation(convs[1..], id)
  }

  /** The messages of `c` addressed to `u` that are still unread. */
  predicate UnreadFor(m: DirectMessage, c: ConversationId, u: UserId) {
    m.conversationId == c && m.receiver == u && !m.isRead
  }

  /** `countUnreadMessages`. */
  function UnreadCount(msgs: seq<DirectMessage>, c: ConversationId, u: UserId): (n: nat)
    ensures n <= |msgs|
    ensures n == 0 <==> forall i :: 0 <= i < |msgs| ==> !UnreadFor(msgs[i], c, u)
  {
    Count(msgs, m => UnreadFor(m, c, u))
  }

  /** `countAllUnreadMessages`. */
  function AllUnreadCount(msgs: seq<DirectMessage>, u: UserId): (n: nat)
    ensures n <= |msgs|
    ensures n == 0 <==> forall i :: 0 <= i < |msgs| ==> msgs[i].receiver != u || msgs[i].isRead
  {
    Count(msgs, (m: DirectMessage) => m.receiver == u && !m.isRead)
  }

  /** `markConversationAsRead`: the unread messages of `c` addressed to `u` become read,
      stamped with the current time `now`. */
  function MarkRead(msgs: seq<DirectMessage>, c: ConversationId, u: UserId, now: Millis): (r: seq<DirectMessage>)
    ensures |r| == |msgs|
    ensures forall i :: 0 <= i < |msgs| ==>
              r[i] == (if UnreadFor(msgs[i], c, u) then msgs[i].(isRead := true, readAt := Some(now)) else msgs[i])
  {
    seq(|msgs|, i requires 0 <= i < |msgs| =>
      if UnreadFor(msgs[i], c, u) then msgs[i].(isRead := true, readAt := Some(now)) else msgs[i])
  }

  /** After marking, nothing in that conversation is unread for that user, and every
      other conversation's and user's unread count is as before. */
  lemma MarkReadClears(msgs: seq<DirectMessage>, c: ConversationId, u: UserId, now: Millis, c': ConversationId, u': UserId)
    ensures UnreadCount(MarkRead(msgs, c, u, now), c, u) == 0
    ensures c' != c || u' != u ==> UnreadCount(MarkRead(msgs, c, u, now), c', u') == UnreadCount(msgs, c', u')
  {
    var r := MarkRead(msgs, c, u, now);
    assert forall i :: 0 <= i < |r| ==> !UnreadFor(r[i], c, u);
    if c' != c || u' != u {
      CountPointwise(r, msgs, m => UnreadFor(m, c', u'));
    }
  }

  /** Two sequences that agree elementwise on `p` have the same count. */
  lemma {:induction false} CountPointwise<T>(s: seq<T>, t: seq<T>, p: T -> bool)
    requires |s| == |t| && forall i :: 0 <= i < |s| ==> p(s[i]) == p(t[i])
    ensures Count(s, p) == Count(t, p)
  {
    if s != [] {
      CountPointwise(s[1..], t[1..], p);
    }
  }

  /** `findByUserOrderByLastMessageAtDesc`: the user's conversations, latest first. */
  function UserConversations(convs: seq<Conversation>, u: UserId): (r: seq<Conversation>)
    ensures SortedDesc(r, (c: Conversation) => c.lastMessageAt)
    ensures forall c :: c in r <==> c in convs && ContainsUser(c, u)
  {
    var mine := Filter(convs, c => ContainsUser(c, u));
    var r := SortDesc(mine, (c: Conversation) => c.lastMessageAt);
    forall c ensures c in r <==> c in mine {
      assert c in r <==> c in multiset(r);
      assert c in mine <==> c in multiset(mine);
    }
    r
  }

  /** One row of a conversation listing. */
  datatype ConversationRow = ConversationRow(conversationId: ConversationId, otherUser: Option<UserId>,
                                             lastMessage: Option<string>, lastMessageAt: Millis,
                                             lastMessageSender: Option<UserId>, unreadCount: nat)

  function RowOf(c: Conversation, u: UserId, msgs: seq<DirectMessage>): (r: ConversationRow)
    ensures r.conversationId == c.id && r.otherUser == OtherUser(c, Some(u))
    ensures r.lastMessageAt == c.lastMessageAt
    ensures r.unreadCount == UnreadCount(msgs, c.id, u)
  {
    ConversationRow(c.id, OtherUser(c, Some(u)), c.lastMessageContent, c.lastMessageAt, c.lastMessageSender,
                    UnreadCount(msgs, c.id, u))
  }

  function Rows(convs: seq<Conversation>, u: UserId, msgs: seq<DirectMessage>): (r: seq<ConversationRow>)
    ensures |r| == |convs|
    ensures forall i :: 0 <= i < |convs| ==> r[i] == RowOf(convs[i], u, msgs)
  {
    seq(|convs|, i requires 0 <= i < |convs| => RowOf(convs[i], u, msgs))
  }

  /** The friend filter of `getFriendsConversations`: conversations whose other user is
      a friend. */
  predicate WithFriend(c: Conversation, u: UserId, friends: set<UserId>) {
    OtherUser(c, Some(u)).Some? && OtherUser(c, Some(u)).value in friends
  }

  /** One row of a conversation's message listing. */
  datatype MessageRow = MessageRow(messageId: MessageId, senderId: UserId, content: string,
                                   sentAt: Millis, isRead: bool, isOwn: bool)

  /** The row of one message: its fields, and whether the caller sent it. */
  function RowFor(m: DirectMessage, u: UserId): (r: MessageRow)
    ensures r.messageId == m.id && r.sentAt == m.sentAt && (r.isOwn <==> m.sender == u)
  {
    MessageRow(m.id, m.sender, m.content, m.sentAt, m.isRead, m.sender == u)
  }

  function MessageRows(msgs: seq<DirectMessage>, u: UserId): (r: seq<MessageRow>)
    ensures |r| == |msgs|
    ensures forall i :: 0 <= i < |msgs| ==> r[i] == RowFor(msgs[i], u)
  {
    seq(|msgs|, i requires 0 <= i < |msgs| => RowFor(msgs[i], u))
  }

  /** The rows of a user's conversations, latest first, one per conversation of the user. */
  function ConversationListing(convs: seq<Conversation>, u: UserId, msgs: seq<DirectMessage>): (r: seq<ConversationRow>)
    ensures |r| == |UserConversations(convs, u)|
    ensures forall i, j :: 0 <= i < j < |r| ==> r[i].lastMessageAt >= r[j].lastMessageAt
    ensures forall i :: 0 <= i < |r| ==> r[i] == RowOf(UserConversations(convs, u)[i], u, msgs)
    ensures forall c :: c in convs && ContainsUser(c, u) ==> RowOf(c, u, msgs) in r
  {
    var mine := UserConversations(convs, u);
    var rows := Rows(mine, u, msgs);
    RowsCoverConversations(mine, u, msgs);
    rows
  }

  lemma RowsCoverConversations(mine: seq<Conversation>, u: UserId, msgs: seq<DirectMessage>)
    ensures forall c :: c in mine ==> RowOf(c, u, msgs) in Rows(mine, u, msgs)
  {
    var rows := Rows(mine, u, msgs);
    forall c | c in mine ensures RowOf(c, u, msgs) in rows {
      var k :| 0 <= k < |mine| && mine[k] == c;
      assert rows[k] == RowOf(c, u, msgs);
    }
  }

  /** The messages of one conversation, in table order. */
  function MessagesOf(msgs: seq<DirectMessage>, id: ConversationId): (r: seq<DirectMessage>)
    ensures forall m :: m in r <==> m in msgs && m.conversationId == id
  {
    Filter(msgs, (m: DirectMessage) => m.conversationId == id)
  }

  /** `findByConversationOrderBySentAtAsc`: the conversation's messages, a permutation of
      them in ascending send time. */
  function SortedMessages(msgs: seq<DirectMessage>, id: ConversationId): (r: seq<DirectMessage>)
    ensures multiset(r) == multiset(MessagesOf(msgs, id))
    ensures forall m :: m in r <==> m in msgs && m.conversationId == id
    ensures forall i, j :: 0 <= i < j < |r| ==> r[i].sentAt <= r[j].sentAt
  {
    var mine := MessagesOf(msgs, id);
    var r := SortDesc(mine, (m: DirectMessage) => -m.sentAt);
    assert forall m :: m in r <==> m in multiset(r);
    assert forall m :: m in mine <==> m in multiset(mine);
    r
  }

  /** The rows of a conversation's messages in ascending send time, one per message. */
  function MessageListing(msgs: seq<DirectMessage>, id: ConversationId, u: UserId): (r: seq<MessageRow>)
    ensures |r| == |MessagesOf(msgs, id)|
    ensures forall i, j :: 0 <= i < j < |r| ==> r[i].sentAt <= r[j].sentAt
    ensures forall m :: m in msgs && m.conversationId == id ==> RowFor(m, u) in r
    ensures forall i :: 0 <= i < |r| ==> r[i] == RowFor(SortedMessages(msgs, id)[i], u)
  {
    var sorted := SortedMessages(msgs, id);
    assert |sorted| == |multiset(sorted)| == |MessagesOf(msgs, id)|;
    var rows := MessageRows(sorted, u);
    RowsCoverMessages(sorted, u);
    rows
  }

  lemma RowsCoverMessages(sorted: seq<DirectMessage>, u: UserId)
    ensures forall m :: m in sorted ==> RowFor(m, u) in MessageRows(sorted, u)
  {
    var rows := MessageRows(sorted, u);
    forall m | m in sorted ensures RowFor(m, u) in rows {
      var k :| 0 <= k < |sorted| && sorted[k] == m;
      assert rows[k] == RowFor(m, u);
    }
  }

  class DirectMessageService {
    var users: set<UserId>
    var conversations: seq<Conversation>
    var messages: seq<DirectMessage>
    var nextConversationId: ConversationId
    var nextMessageId: MessageId

    /** Every stored conversation has both participants, the smaller id first, and
        distinct ids below the counter; no two conversations join the same pair. */
    ghost predicate Valid()
      reads this
    {
      && (forall c :: c in conversations ==>
            c.user1.Some? && c.user2.Some? && c.user1.value <= c.user2.value && c.id < nextConversationId)
      && (forall i, j :: 0 <= i < j < |conversations| ==>
            conversations[i].id != conversations[j].id
            && (conversations[i].user1 != conversations[j].user1 || conversations[i].user2 != conversations[j].user2))
    }

    constructor (users: set<UserId>)
      ensures Valid() && this.users == users && conversations == [] && messages == []
    {
      this.users := users;
      conversations := [];
      messages := [];
      nextConversationId := 1;
      nextMessageId := 1;
    }

    /** Under `Valid`, each pair has at most one conversation, so the lookup never finds
        several. */
    lemma AtMostOnePerPair(a: UserId, b: UserId)
      requires Valid()
      ensures !FindByUsers(conversations, a, b).ManyRows?
    {
      forall i, j | 0 <= i < j < |conversations| && Between(conversations[i], a, b)
        ensures !Between(conversations[j], a, b)
      {
        assert conversations[i] in conversations && conversations[j] in conversations;
      }
      FilterAtMostOne(conversations, c => Between(c, a, b));
    }

    /** `getOrCreateConversation`: an unknown user is an error; an existing conversation
        between the two (in either order) is returned unchanged; otherwise a new one is
        stored with the smaller id as user1. */
    method GetOrCreateConversation(a: UserId, b: UserId, now: Millis) returns (r: Result<Conversation, DmError>)
      requires Valid()
      modifies this
      ensures Valid()
      ensures users == old(users) && messages == old(messages)
      ensures a !in users ==> r == Err(UserNotFound(a)) && conversations == old(conversations)
      ensures a in users && b !in users ==> r == Err(UserNotFound(b)) && conversations == old(conversations)
      ensures a in users && b in users && FindByUsers(old(conversations), a, b).OneRow? ==>
                r == Ok(FindByUsers(old(conversations), a, b).row) && conversations == old(conversations)
      ensures a in users && b in users && FindByUsers(old(conversations), a, b).NoRow? ==>
                && r.Ok? && conversations == old(conversations) + [r.value]
                && r.value.user1 == Some(if a < b then a else b) && r.value.user2 == Some(if a < b then b else a)
                && r.value.lastMessageContent.None? && r.value.lastMessageAt == now
      ensures r.Ok? ==> Between(r.value, a, b) && r.value.user1.value <= r.value.user2.value
    {
      if a !in users {
        return Err(UserNotFound(a));
      }
      if b !in users {
        return Err(UserNotFound(b));
      }
      AtMostOnePerPair(a, b);
      var existing := FindByUsers(conversations, a, b);
      if existing.OneRow? {
        assert existing.row in conversations;
        return Ok(existing.row);
      }
      var smaller := if a < b then a else b;
      var larger := if a < b then b else a;
      var c := Conversation(nextConversationId, Some(smaller), Some(larger), now, now, None, None);
      forall i | 0 <= i < |conversations|
        ensures conversations[i].user1 != c.user1 || conversations[i].user2 != c.user2
      {
        assert conversations[i] in conversations;
      }
      conversations := conversations + [c];
      nextConversationId := nextConversationId + 1;
      r := Ok(c);
    }

    /** `sendMessage`: the conversation and the sender must exist and the sender must
        take part; the receiver is the other participant, and the conversation's last
        message becomes this one. */
    method SendMessage(conversationId: ConversationId, sender: UserId, content: string, now: Millis)
      returns (r: Result<DirectMessage, DmError>)
      requires Valid()
      modifies this
      ensures Valid()
      ensures users == old(users)
      ensures FindConversation(old(conversations), conversationId).None? ==>
                r == Err(ConversationNotFound(conversationId)) && conversations == old(conversations) && messages == old(messages)
      ensures FindConversation(old(conversations), conversationId).Some? && sender !in users ==>
                r == Err(UserNotFound(sender)) && conversations == old(conversations) && messages == old(messages)
      ensures FindConversation(old(conversations), conversationId).Some? && sender in users
              && !ContainsUser(FindConversation(old(conversations), conversationId).value, sender) ==>
                r == Err(SenderNotInConversation) && conversations == old(conversations) && messages == old(messages)
      ensures r.Err? ==> conversations == old(conversations) && messages == old(messages)
      ensures r.Ok? <==> FindConversation(old(conversations), conversationId).Some? && sender in users
                         && ContainsUser(FindConversation(old(conversations), conversationId).value, sender)
      ensures r.Ok? ==>
                var c := FindConversation(old(conversations), conversationId).value;
                && ContainsUser(c, sender)
                && Some(r.value.receiver) == OtherUser(c, Some(sender))
                && r.value.sender == sender && r.value.content == content && r.value.sentAt == now && !r.value.isRead && r.value.readAt.None?
                && r.value.conversationId == conversationId
                && messages == old(messages) + [r.value]
                && |conversations| == |old(conversations)|
                && forall i :: 0 <= i < |conversations| ==>
                     conversations[i] == if old(conversations)[i].id == conversationId
                                         then old(conversations)[i].(lastMessageAt := now, lastMessageContent := Some(content),
                                                                     lastMessageSender := Some(sender))
                                         else old(conversations)[i]
    {
      var found := FindConversation(conversations, conversationId);
      if found.None? {
        return Err(ConversationNotFound(conversationId));
      }
      if sender !in users {
        return Err(UserNotFound(sender));
      }
      var c := found.value;
      var receiver := OtherUser(c, Some(sender));
      if receiver.None? {
        return Err(SenderNotInConversation);
      }
      var message := DirectMessage(nextMessageId, conversationId, sender, receiver.value, content, now, false, None);
      messages := messages + [message];
      nextMessageId := nextMessageId + 1;
      conversations := UpdateLast(conversations, conversationId, now, content, sender);
      r := Ok(message);
    }

    /** `getUserConversations`: the rows of the user's conversations, latest first. */
    function GetUserConversations(u: UserId): (r: Result<seq<ConversationRow>, DmError>)
      reads this
      requires Valid()
      ensures u !in users <==> r == Err(UserNotFound(u))
      ensures r.Ok? ==> |r.value| == |UserConversations(conversations, u)|
                        && forall i :: 0 <= i < |r.value| ==> r.value[i].otherUser.Some?
      ensures r.Ok? ==> forall i, j :: 0 <= i < j < |r.value| ==> r.value[i].lastMessageAt >= r.value[j].lastMessageAt
      ensures r.Ok? ==> forall i :: 0 <= i < |r.value| ==> r.value[i] == RowOf(UserConversations(conversations, u)[i], u, messages)
      ensures r.Ok? ==> forall c :: c in conversations && ContainsUser(c, u) ==> RowOf(c, u, messages) in r.value
    {
      if u !in users then Err(UserNotFound(u)) else Ok(ConversationListing(conversations, u, messages))
    }

    /** `getFriendsConversations`: the user's conversations, latest first, keeping only
        those whose other participant is a friend. */
    function GetFriendsConversations(u: UserId, friends: set<UserId>): (r: Result<seq<Conversation>, DmError>)
      reads this
      ensures u !in users <==> r == Err(UserNotFound(u))
      ensures r.Ok? ==> IsSubseq(r.value, UserConversations(conversations, u))
      ensures r.Ok? ==> forall c :: c in r.value <==> c in conversations && ContainsUser(c, u) && WithFriend(c, u, friends)
    {
      if u !in users then Err(UserNotFound(u))
      else Ok(Filter(UserConversations(conversations, u), c => WithFriend(c, u, friends)))
    }

    /** The guard shared by the message listing, mark-read and info lookups. */
    function Participant(conversationId: ConversationId, u: UserId): (r: Result<Conversation, DmError>)
      reads this
      ensures FindConversation(conversations, conversationId).None? <==> r == Err(ConversationNotFound(conversationId))
      ensures r == Err(AccessDenied) <==>
                FindConversation(conversations, conversationId).Some? && u in users
                && !ContainsUser(FindConversation(conversations, conversationId).value, u)
      ensures r.Ok? ==> r.value.id == conversationId && r.value in conversations && ContainsUser(r.value, u)
    {
      var found := FindConversation(conversations, conversationId);
      if found.None? then Err(ConversationNotFound(conversationId))
      else if u !in users then Err(UserNotFound(u))
      else if !ContainsUser(found.value, u) then Err(AccessDenied)
      else Ok(found.value)
    }

    /** `getConversationMessages`: for a participant, the conversation's messages in
        ascending send time, each flagged when it is the caller's own. */
    function GetConversationMessages(conversationId: ConversationId, u: UserId): (r: Result<seq<MessageRow>, DmError>)
      reads this
      ensures r.Err? <==> Participant(conversationId, u).Err?
      ensures r.Ok? ==> |r.value| == |MessagesOf(messages, conversationId)|
      ensures r.Ok? ==> forall i, j :: 0 <= i < j < |r.value| ==> r.value[i].sentAt <= r.value[j].sentAt
      ensures r.Ok? ==> forall i :: 0 <= i < |r.value| ==>
                          exists m :: m in messages && m.conversationId == conversationId && r.value[i] == RowFor(m, u)
      ensures r.Ok? ==> forall m :: m in messages && m.conversationId == conversationId ==> RowFor(m, u) in r.value
    {
      var guard := Participant(conversationId, u);
      if guard.Err? then Err(guard.error) else Ok(MessageListing(messages, conversationId, u))
    }

    /** `markConversationAsRead`: for a participant, every message of the conversation
        addressed to them becomes read; a failed guard changes nothing. */
    method MarkConversationAsRead(conversationId: ConversationId, u: UserId, now: Millis) returns (r: Result<(), DmError>)
      requires Valid()
      modifies this
      ensures Valid()
      ensures users == old(users) && conversations == old(conversations)
      ensures r.Err? <==> Participant(conversationId, u).Err?
      ensures r.Err? ==> messages == old(messages)
      ensures r.Ok? ==> messages == MarkRead(old(messages), conversationId, u, now) && UnreadCount(messages, conversationId, u) == 0
    {
      var guard := Participant(conversationId, u);
      if guard.Err? {
        return Err(guard.error);
      }
      MarkReadClears(messages, conversationId, u, now, conversationId, u);
      messages := MarkRead(messages, conversationId, u, now);
      r := Ok(());
    }

    /** `getTotalUnreadCount`. */
    function GetTotalUnreadCount(u: UserId): (r: Result<nat, DmError>)
      reads this
      ensures u !in users <==> r.Err?
      ensures r.Ok? ==> r.value == AllUnreadCount(messages, u) && r.value <= |messages|
    {
      if u !in users then Err(UserNotFound(u)) else Ok(AllUnreadCount(messages, u))
    }

    /** `getConversationInfo`: for a participant, the conversation and the other user. */
    function GetConversationInfo(conversationId: ConversationId, u: UserId): (r: Result<(ConversationId, UserId), DmError>)
      reads this
      requires Valid()
      ensures r.Err? <==> Participant(conversationId, u).Err?
      ensures r.Ok? ==> r.value.0 == conversationId
                        && ContainsUser(Participant(conversationId, u).value, r.value.1)
                        && Some(r.value.1) == OtherUser(Participant(conversationId, u).value, Some(u))
    {
      var guard := Participant(conversationId, u);
      if guard.Err? then Err(guard.error)
      else
        assert guard.value in conversations;
        Ok((conversationId, OtherUser(guard.value, Some(u)).value))
    }
  }

  /** The last-message update of `sendMessage` on the conversation with that id. */
  function UpdateLast(convs: seq<Conversation>, id: ConversationId, now: Millis, content: string, sender: UserId)
    : (r: seq<Conversation>)
    ensures |r| == |convs|
    ensures forall i :: 0 <= i < |convs| ==>
              r[i] == if convs[i].id == id
                      then convs[i].(lastMessageAt := now, lastMessageContent := Some(content), lastMessageSender := Some(sender))
                      else convs[i]
  {
    seq(|convs|, i requires 0 <= i < |convs| =>
      if convs[i].id == id
      then convs[i].(lastMessageAt := now, lastMessageContent := Some(content), lastMessageSender := Some(sender))
      else convs[i])
  }

  /** When no two positions satisfy `p`, the filter keeps at most one element. */
  lemma {:induction false} FilterAtMostOne<T(!new)>(s: seq<T>, p: T -> bool)
    requires forall i, j :: 0 <= i < j < |s| && p(s[i]) ==> !p(s[j])
    ensures |Filter(s, p)| <= 1
  {
    if s != [] {
      if p(s[0]) {
        FilterNone(s[1..], p);
      } else {
        FilterAtMostOne(s[1..], p);
      }
    }
  }
}

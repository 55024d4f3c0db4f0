/** The `DirectMessageConversation` entity: two participants (either may be null in the
    entity, so each is an `Option`) and the summary of the last message. Users are
    identified by their ids, which is what the entity compares. */
module DirectConversations {
  import opened Wrappers
  import opened Ids

  datatype Conversation = Conversation(id: ConversationId, user1: Option<UserId>, user2: Option<UserId>,
                                       createdAt: Millis, lastMessageAt: Millis,
                                       lastMessageContent: Option<string>, lastMessageSender: Option<UserId>)

  /** `containsUser`: the user is one of the two (non-null) participants. */
  predicate ContainsUser(c: Conversation, u: UserId)
  {
    c.user1 == Some(u) || c.user2 == Some(u)
  }

  /** `getOtherUser`: null for a null user; user2 for user1 (checked first), user1 for
      user2, and null for anyone else. */
  function OtherUser(c: Conversation, u: Option<UserId>): (r: Option<UserId>)
    ensures u.None? ==> r.None?
    ensures u.Some? && !ContainsUser(c, u.value) ==> r.None?
    ensures u.Some? && c.user1 == u ==> r == c.user2
    ensures u.Some? && c.user1 != u && c.user2 == u ==> r == c.user1
  {
    if u.None? then None
    else if c.user1 == u then c.user2
    else if c.user2 == u then c.user1
    else None
  }

  /** The participants are swapped: each one's other user is the other participant. */
  lemma OtherUserSwaps(c: Conversation)
    requires c.user1.Some? && c.user2.Some?
    ensures OtherUser(c, c.user1) == c.user2
    ensures OtherUser(c, c.user2) == c.user1
  {
  }

  /** With both participants set, a user has an other user exactly when the user is in
      the conversation, and the other user's other user is the user again. */
  lemma OtherUserIffContains(c: Conversation, u: UserId)
    requires c.user1.Some? && c.user2.Some?
    ensures OtherUser(c, Some(u)).Some? <==> ContainsUser(c, u)
    ensures ContainsUser(c, u) ==> ContainsUser(c, OtherUser(c, Some(u)).value)
                                   && OtherUser(c, OtherUser(c, Some(u))) == Some(u)
  {
  }
}

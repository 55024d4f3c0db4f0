/** `DirectMessageWebSocketController`: the STOMP handlers for sending a direct message and
    for a read receipt. The payload is a map from keys to JSON values; the messaging
    template is modelled by the list of deliveries a handler makes. Usernames are mapped
    to user ids by `accounts` (`findByUsername`). */
module DmWebSocket {
  import opened Wrappers
  import opened Ids
  import opened Text
  import opened DirectConversations
  import opened DirectMessages

  /** A payload value as Jackson hands it over. */
  datatype JsonValue = LongValue(l: int) | IntValue(i: int) | StringValue(s: string) | OtherValue

  type Payload = map<string, JsonValue>

  const DmQueue: string := "/queue/dm"
  const ReadQueue: string := "/queue/dm-read"

  /** One `convertAndSendToUser`: the recipient, the queue, and what the frame says. */
  datatype Delivery = Delivery(recipient: UserId, queue: string, conversationId: ConversationId, content: string)

  /** `getLongValue`: a Long or an Integer as itself, a String parsed as a long (null when
      it does not parse), and null for anything else or a missing key. */
  function GetLongValue(value: Option<JsonValue>): (r: Option<int>)
    ensures value.None? || value.value.OtherValue? ==> r.None?
    ensures value.Some? && value.value.LongValue? ==> r == Some(value.value.l)
    ensures value.Some? && value.value.IntValue? ==> r == Some(value.value.i)
    ensures value.Some? && value.value.StringValue? ==> r == ParseLong(value.value.s)
  {
    if value.None? then None
    else match value.value
      case LongValue(l) => Some(l)
      case IntValue(i) => Some(i)
      case StringValue(s) => ParseLong(s)
      case OtherValue => None
  }

  /** A conversation id sent as a decimal string reads back as the number. */
  lemma StringIdRoundTrip(id: nat)
    requires id <= LongMax
    ensures GetLongValue(Some(StringValue(NatToString(id)))) == Some(id)
  {
    ParseLongNatToString(id);
  }

  function Lookup(payload: Payload, key: string): Option<JsonValue> {
    if key in payload then Some(payload[key]) else None
  }

  /** The checks of `sendDirectMessage` before any lookup: a signed-in user, a conversation
      id, and a string content that is not blank. A content that is not a string fails its
      cast, which the handler's catch swallows, so it is rejected the same way. */
  function SendRequest(username: Option<string>, payload: Payload): (r: Option<(int, string)>)
    ensures r.Some? ==> username.Some? && GetLongValue(Lookup(payload, "conversationId")) == Some(r.value.0)
                        && Lookup(payload, "content") == Some(StringValue(r.value.1)) && !IsBlank(r.value.1)
    ensures (&& username.Some? && GetLongValue(Lookup(payload, "conversationId")).Some?
             && Lookup(payload, "content").Some? && Lookup(payload, "content").value.StringValue?
             && !IsBlank(Lookup(payload, "content").value.s)) ==> r.Some?
  {
    if username.None? then None
    else
      var id := GetLongValue(Lookup(payload, "conversationId"));
      var content := Lookup(payload, "content");
      if id.None? || content.None? || !content.value.StringValue? || IsBlank(content.value.s) then None
      else Some((id.value, content.value.s))
  }

  /** `sendDirectMessage`: a valid request from a known user is saved through the direct
      message service and echoed to the sender and then the receiver; anything that fails
      on the way (an invalid payload, an unknown user, a negative or unknown conversation,
      a sender outside it) changes nothing and sends nothing. The accounts are the user
      table the service reads, looked up by username. */
  method SendDirectMessage(svc: DirectMessageService, accounts: map<string, UserId>,
                           username: Option<string>, payload: Payload, now: Millis)
    returns (deliveries: seq<Delivery>)
    requires svc.Valid()
    requires accounts.Values <= svc.users
    modifies svc
    ensures svc.Valid()
    ensures deliveries != [] <==>
              && SendRequest(username, payload).Some?
              && username.value in accounts
              && 0 <= SendRequest(username, payload).value.0
              && old(svc.Participant(SendRequest(username, payload).value.0, accounts[username.value])).Ok?
    ensures deliveries != [] ==>
              var (id, content) := SendRequest(username, payload).value;
              var sender := accounts[username.value];
              && |deliveries| == 2 && |svc.messages| == |old(svc.messages)| + 1
              && svc.messages[..|old(svc.messages)|] == old(svc.messages)
              && var m := svc.messages[|svc.messages| - 1];
                 && m.sender == sender && m.content == content && m.conversationId == id && m.sentAt == now
                 && !m.isRead
                 && Some(m.receiver) == OtherUser(old(svc.Participant(id, sender)).value, Some(sender))
                 && deliveries == [Delivery(sender, DmQueue, id, content), Delivery(m.receiver, DmQueue, id, content)]
    ensures deliveries == [] ==> svc.messages == old(svc.messages) && svc.conversations == old(svc.conversations)
  {
    var request := SendRequest(username, payload);
    if request.None? || username.value !in accounts {
      return [];
    }
    var (id, content) := request.value;
    var sender := accounts[username.value];
    if id < 0 {
      return [];
    }
    var sent := svc.SendMessage(id, sender, content, now);
    if sent.Err? {
      return [];
    }
    deliveries := [Delivery(sender, DmQueue, id, content), Delivery(sent.value.receiver, DmQueue, id, sent.value.content)];
  }

  /** The checks of `markAsRead` before the service is called: a signed-in, known user and a
      conversation id; the id and the reader. */
  function ReadRequest(accounts: map<string, UserId>, username: Option<string>, payload: Payload): (r: Option<(int, UserId)>)
    ensures r.Some? <==> username.Some? && username.value in accounts && GetLongValue(Lookup(payload, "conversationId")).Some?
    ensures r.Some? ==> r.value == (GetLongValue(Lookup(payload, "conversationId")).value, accounts[username.value])
  {
    if username.None? || username.value !in accounts then None
    else
      var id := GetLongValue(Lookup(payload, "conversationId"));
      if id.None? then None else Some((id.value, accounts[username.value]))
  }

  /** `markAsRead`: a request with a conversation id from a known participant marks the
      conversation read for them at `now` and tells the other participant, if that user
      exists; an invalid request or a non-participant changes nothing and sends nothing. */
  method MarkAsRead(svc: DirectMessageService, accounts: map<string, UserId>,
                    username: Option<string>, payload: Payload, now: Millis)
    returns (deliveries: seq<Delivery>)
    requires svc.Valid()
    requires accounts.Values <= svc.users
    modifies svc
    ensures svc.Valid()
    ensures svc.conversations == old(svc.conversations) && svc.users == old(svc.users)
    ensures var req := ReadRequest(accounts, username, payload);
            if req.Some? && 0 <= req.value.0 && old(svc.Participant(req.value.0, req.value.1)).Ok? then
              var (id, reader) := req.value;
              var other := OtherUser(old(svc.Participant(id, reader)).value, Some(reader));
              && svc.messages == MarkRead(old(svc.messages), id, reader, now)
              && other.Some?
              && (deliveries != [] <==> other.value in old(svc.users))
              && (deliveries != [] ==> deliveries == [Delivery(other.value, ReadQueue, id, username.value)])
            else
              deliveries == [] && svc.messages == old(svc.messages)
  {
    var req := ReadRequest(accounts, username, payload);
    if req.None? {
      return [];
    }
    var (id, reader) := req.value;
    if id < 0 {
      return [];
    }
    var marked := svc.MarkConversationAsRead(id, reader, now);
    if marked.Err? {
      return [];
    }
    var info := svc.GetConversationInfo(id, reader);
    var other := info.value.1;
    if other in svc.users {
      deliveries := [Delivery(other, ReadQueue, id, username.value)];
    } else {
      deliveries := [];
    }
  }
}

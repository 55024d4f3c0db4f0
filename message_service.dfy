/** `MessageService`: saving a group-chat message (an unknown room falls back to the
    first room, or to a default room created on the spot) and the chat history of a room,
    ascending by send time and cut to the latest `limit` messages. */
module Messages {
  import opened Wrappers
  import opened Ids
  import opened Collections

  type MessageId = nat

  datatype Message = Message(id: MessageId, content: string, sender: UserId, chatRoomId: RoomId, sentAt: Millis)

  /** The user and room rows `saveMessage` reads, in `findAll` order. */
  datatype Account = Account(id: UserId, username: string)
  datatype Room = Room(id: RoomId, name: string, createdBy: UserId)

  datatype MessageError = UnknownUser(username: string) | NullRoomId

  const DefaultRoomName: string := "メインチャット"
  const AdminName: string := "admin"
  const SystemName: string := "system"

  const Int32Modulus: int := 0x1_0000_0000

  /** A Java `int`. */
  type Int32 = x: int | -0x8000_0000 <= x < 0x8000_0000

  /** Java `int` arithmetic: the value wrapped into [-2^31, 2^31). */
  function Wrap32(x: int): (r: int)
    ensures -0x8000_0000 <= r < 0x8000_0000
    ensures -0x8000_0000 <= x < 0x8000_0000 ==> r == x
  {
    (x + 0x8000_0000) % Int32Modulus - 0x8000_0000
  }

  /** Ascending send-time order, as a descending key. */
  function SentAtKey(m: Message): int { -m.sentAt }

  /** `findByChatRoomIdOrderBySentAtAsc`, and the filter-then-sort of `getChatHistory`:
      the room's messages in ascending send time. */
  function RoomMessages(all: seq<Message>, roomId: Option<RoomId>): (r: seq<Message>)
    ensures SortedDesc(r, SentAtKey)
    ensures multiset(r) == multiset(Filter(all, (m: Message) => Some(m.chatRoomId) == roomId))
    ensures forall m :: m in r <==> m in all && Some(m.chatRoomId) == roomId
    ensures roomId.None? ==> r == []
  {
    var inRoom := (m: Message) => Some(m.chatRoomId) == roomId;
    var mine := Filter(all, inRoom);
    if roomId.None? then
      FilterNone(all, inRoom);
      []
    else
      var r := SortDesc(mine, SentAtKey);
      forall m ensures m in r <==> m in mine {
        assert m in r <==> m in multiset(r);
        assert m in mine <==> m in multiset(mine);
      }
      r
  }

  /** Where `getChatHistory` starts reading: `max(0, size - limit)` in 32-bit arithmetic,
      which `skip` then caps at the size. */
  function HistoryStart(size: nat, limit: Int32): (from: nat)
    ensures from <= size
    ensures size < 0x8000_0000 && 0 <= limit ==> size - from == if limit < size then limit else size
    ensures size < 0x8000_0000 + limit && -0x8000_0000 < limit <= 0 ==> from == size
    ensures 0 < size < 0x8000_0000 && limit == -0x8000_0000 ==> from == 0
  {
    var skip := Wrap32(size - limit);
    if skip < 0 then 0 else if skip > size then size else skip
  }

  /** `getChatHistory`: `None` for `all` is a failed query, which yields the empty list;
      otherwise the room's messages in ascending send time, from `HistoryStart` on. */
  function GetChatHistory(all: Option<seq<Message>>, roomId: Option<RoomId>, limit: Int32): (r: seq<Message>)
    ensures all.None? || roomId.None? ==> r == []
    ensures all.Some? ==> var room := RoomMessages(all.value, roomId);
              |r| <= |room| && r == room[|room| - |r|..]
    ensures SortedDesc(r, SentAtKey)
    ensures forall m :: m in r ==> all.Some? && m in all.value && Some(m.chatRoomId) == roomId
    ensures all.Some? && |RoomMessages(all.value, roomId)| < 0x8000_0000 && 0 <= limit ==>
              |r| == if limit < |RoomMessages(all.value, roomId)| then limit else |RoomMessages(all.value, roomId)|
  {
    if all.None? then []
    else
      var room := RoomMessages(all.value, roomId);
      var from := HistoryStart(|room|, limit);
      SuffixOf(room, from);
      room[from..]
  }

  lemma SuffixOf(s: seq<Message>, from: nat)
    requires from <= |s|
    ensures SortedDesc(s, SentAtKey) ==> SortedDesc(s[from..], SentAtKey)
    ensures forall m :: m in s[from..] ==> m in s
    ensures s[from..] == s[|s| - |s[from..]|..]
  {
    if SortedDesc(s, SentAtKey) {
      forall i, j | 0 <= i < j < |s[from..]|
        ensures SentAtKey(s[from..][i]) >= SentAtKey(s[from..][j])
      {
        assert s[from..][i] == s[from + i] && s[from..][j] == s[from + j];
      }
    }
  }

  /** A limit of `Integer.MIN_VALUE` wraps `size - limit` round to a negative skip, so
      the whole history comes back rather than nothing. */
  lemma MinLimitKeepsAll(all: seq<Message>, roomId: Option<RoomId>)
    requires 0 < |RoomMessages(all, roomId)| < 0x8000_0000
    ensures GetChatHistory(Some(all), roomId, -0x8000_0000) == RoomMessages(all, roomId)
  {
  }

  /** Any other non-positive limit returns nothing. */
  lemma NonPositiveLimitEmpty(all: seq<Message>, roomId: Option<RoomId>, limit: Int32)
    requires -0x8000_0000 < limit <= 0 && |RoomMessages(all, roomId)| < 0x8000_0000 + limit
    ensures GetChatHistory(Some(all), roomId, limit) == []
  {
  }

  function FindUser(users: seq<Account>, username: string): (r: Option<Account>)
    ensures r.Some? ==> r.value in users && r.value.username == username
    ensures r.None? <==> forall a :: a in users ==> a.username != username
  {
    if users == [] then None
    else if users[0].username == username then Some(users[0])
    else FindUser(users[1..], username)
  }

  function FindRoom(rooms: seq<Room>, id: RoomId): (r: Option<Room>)
    ensures r.Some? ==> r.value in rooms && r.value.id == id
    ensures r.None? <==> forall x :: x in rooms ==> x.id != id
  {
    if rooms == [] then None
    else if rooms[0].id == id then Some(rooms[0])
    else FindRoom(rooms[1..], id)
  }

  class MessageService {
    var users: seq<Account>
    var rooms: seq<Room>
    var messages: seq<Message>
    var nextUserId: UserId
    var nextRoomId: RoomId
    var nextMessageId: MessageId

    /** Ids handed out so far are below their counters. */
    ghost predicate Valid()
      reads this
    {
      && (forall a :: a in users ==> a.id < nextUserId)
      && (forall x :: x in rooms ==> x.id < nextRoomId)
      && (forall m :: m in messages ==> m.id < nextMessageId)
    }

    constructor (users: seq<Account>, rooms: seq<Room>, nextUserId: UserId, nextRoomId: RoomId)
      requires forall a :: a in users ==> a.id < nextUserId
      requires forall x :: x in rooms ==> x.id < nextRoomId
      ensures Valid() && this.users == users && this.rooms == rooms && messages == []
    {
      this.users := users;
      this.rooms := rooms;
      messages := [];
      this.nextUserId := nextUserId;
      this.nextRoomId := nextRoomId;
      nextMessageId := 1;
    }

    /** `createDefaultChatRoom`: a new group room named "メインチャット", created by the
        admin user, else the first user, else a "system" user stored for the purpose. */
    method CreateDefaultChatRoom() returns (room: Room)
      requires Valid()
      modifies this
      ensures Valid()
      ensures messages == old(messages)
      ensures room.id == old(nextRoomId) && room.name == DefaultRoomName && rooms == old(rooms) + [room]
      ensures FindUser(old(users), AdminName).Some? ==>
                room.createdBy == FindUser(old(users), AdminName).value.id && users == old(users)
      ensures FindUser(old(users), AdminName).None? && old(users) != [] ==>
                room.createdBy == old(users)[0].id && users == old(users)
      ensures old(users) == [] ==> users == [Account(room.createdBy, SystemName)]
    {
      var admin := FindUser(users, AdminName);
      var creator: UserId;
      if admin.Some? {
        creator := admin.value.id;
      } else if users != [] {
        creator := users[0].id;
      } else {
        creator := nextUserId;
        users := users + [Account(creator, SystemName)];
        nextUserId := nextUserId + 1;
      }
      room := Room(nextRoomId, DefaultRoomName, creator);
      rooms := rooms + [room];
      nextRoomId := nextRoomId + 1;
    }

    /** `saveMessage`: an unknown sender is an error and changes nothing; otherwise the
        message goes to the requested room if it exists, else to the first room, else to
        a newly created default room, and is stored with the sender and `now`. Because
        the sender exists, no "system" user is ever created here. */
    method SaveMessage(content: string, username: string, chatRoomId: Option<RoomId>, now: Millis)
      returns (r: Result<Message, MessageError>)
      requires Valid()
      modifies this
      ensures Valid()
      ensures users == old(users)
      ensures FindUser(old(users), username).None? ==>
                r == Err(UnknownUser(username)) && rooms == old(rooms) && messages == old(messages)
      ensures FindUser(old(users), username).Some? && chatRoomId.None? ==>
                r == Err(NullRoomId) && rooms == old(rooms) && messages == old(messages)
      ensures r.Ok? ==>
                && FindUser(old(users), username).Some? && chatRoomId.Some?
                && r.value.sender == FindUser(old(users), username).value.id
                && r.value.content == content && r.value.sentAt == now
                && messages == old(messages) + [r.value]
                && (FindRoom(old(rooms), chatRoomId.value).Some? ==>
                      r.value.chatRoomId == chatRoomId.value && rooms == old(rooms))
                && (FindRoom(old(rooms), chatRoomId.value).None? && old(rooms) != [] ==>
                      r.value.chatRoomId == old(rooms)[0].id && rooms == old(rooms))
                && (FindRoom(old(rooms), chatRoomId.value).None? && old(rooms) == [] ==>
                      |rooms| == 1 && rooms[0].name == DefaultRoomName && r.value.chatRoomId == rooms[0].id)
      ensures FindUser(old(users), username).Some? && chatRoomId.Some? ==> r.Ok?
    {
      var user := FindUser(users, username);
      if user.None? {
        return Err(UnknownUser(username));
      }
      if chatRoomId.None? {
        return Err(NullRoomId);
      }
      var target: RoomId;
      var found := FindRoom(rooms, chatRoomId.value);
      if found.Some? {
        target := found.value.id;
      } else if rooms != [] {
        target := rooms[0].id;
      } else {
        assert user.value in users;
        var room := CreateDefaultChatRoom();
        target := room.id;
      }
      var message := Message(nextMessageId, content, user.value.id, target, now);
      messages := messages + [message];
      nextMessageId := nextMessageId + 1;
      r := Ok(message);
    }
  }
}

/** `ChatRoomService`: room listings, membership, join requests (PENDING, then APPROVED,
    REJECTED or deleted), invitations and the room-icon upload checks.
    The repositories are value tables held by the service: rooms in `findAll` order, the
    user table as a username-to-id map, join requests as a sequence and invitations by id.
    Room membership is one relation here (a room's member set); the two in-memory sides
    that `ChatRoom.addUser` keeps in step are modelled in `ChatRoomEntity`. */
module ChatRooms {
  import opened Wrappers
  import opened Ids
  import opened Text
  import opened Collections
  import opened Uploads
  import ChatRoomEntity

  type ChatRoomType = ChatRoomEntity.ChatRoomType

  datatype Room = Room(id: RoomId, name: string, description: Option<string>, kind: ChatRoomType,
                       isPublic: bool, createdBy: Option<UserId>, members: set<UserId>)

  datatype RequestStatus = Pending | Approved | Rejected

  datatype JoinRequest = JoinRequest(roomId: RoomId, userId: UserId, status: RequestStatus)

  datatype InvitationStatus = InvitationPending | Accepted | Declined

  datatype Invitation = Invitation(roomId: RoomId, inviter: UserId, invitee: UserId,
                                   status: InvitationStatus, processedAt: Option<Millis>)

  /** The service's `RuntimeException`s, one per distinct message. */
  datatype RoomError =
    | RoomOrUserNotFound
    | CreatorNotFound
    | AlreadyMember
    | AlreadyRequested
    | NotCreator
    | RequestNotFound
    | NoPendingRequest
    | AlreadyInvited
    | InvitationOrUserNotFound
    | NotInvitee
    | AlreadyProcessed

  /** The first position of the room with this id (`findById`). */
  function FindRoom(rooms: seq<Room>, id: RoomId): (r: Option<nat>)
    ensures r.Some? ==> r.value < |rooms| && rooms[r.value].id == id
    ensures r.Some? ==> forall k :: 0 <= k < r.value ==> rooms[k].id != id
    ensures r.None? <==> forall k :: 0 <= k < |rooms| ==> rooms[k].id != id
  {
    if rooms == [] then None
    else if rooms[0].id == id then Some(0)
    else
      match FindRoom(rooms[1..], id)
      case None => None
      case Some(k) => Some(k + 1)
  }

  /** A room appended with a fresh id is found at the end. */
  lemma {:induction false} FindAppended(rooms: seq<Room>, room: Room)
    requires forall k :: 0 <= k < |rooms| ==> rooms[k].id != room.id
    ensures FindRoom(rooms + [room], room.id) == Some(|rooms|)
  {
    if rooms != [] {
      assert (rooms + [room])[1..] == rooms[1..] + [room];
      FindAppended(rooms[1..], room);
    }
  }

  /** `getUserChatRooms`: the rooms the named user belongs to; nothing for an unknown name. */
  function UserChatRooms(rooms: seq<Room>, users: map<string, UserId>, username: string): (r: seq<Room>)
    ensures username !in users ==> r == []
    ensures username in users ==>
              (forall x :: x in r <==> x in rooms && users[username] in x.members) && IsSubseq(r, rooms)
  {
    if username !in users then []
    else Filter(rooms, (x: Room) => users[username] in x.members)
  }

  /** `getAvailablePublicRooms`: the public rooms the named user is not in, in table order;
      nothing for an unknown name. */
  function AvailablePublicRooms(rooms: seq<Room>, users: map<string, UserId>, username: string): (r: seq<Room>)
    ensures username !in users ==> r == []
    ensures username in users ==>
              (forall x :: x in r <==> x in rooms && x.isPublic && users[username] !in x.members)
              && IsSubseq(r, rooms)
  {
    if username !in users then []
    else Filter(rooms, (x: Room) => x.isPublic && users[username] !in x.members)
  }

  /** `searchAvailablePublicRooms`: a missing or blank keyword lists every available room;
      otherwise the available rooms whose lower-cased name contains the lower-cased keyword
      (the keyword itself is not trimmed). */
  function SearchAvailablePublicRooms(rooms: seq<Room>, users: map<string, UserId>, username: string,
                                      keyword: Option<string>): (r: seq<Room>)
    ensures keyword.None? || IsBlank(keyword.value) ==> r == AvailablePublicRooms(rooms, users, username)
    ensures keyword.Some? && !IsBlank(keyword.value) ==>
              (forall x :: x in r <==> (x in AvailablePublicRooms(rooms, users, username)
                                        && Contains(ToLower(x.name), ToLower(keyword.value))))
              && IsSubseq(r, AvailablePublicRooms(rooms, users, username))
  {
    var available := AvailablePublicRooms(rooms, users, username);
    if keyword.None? || IsBlank(keyword.value) then available
    else Filter(available, (x: Room) => Contains(ToLower(x.name), ToLower(keyword.value)))
  }

  /** What `findExistingPrivateRoom` looks for: a one-to-one room (private or random-match)
      holding exactly the two users. */
  predicate IsPairRoom(x: Room, user1: UserId, user2: UserId) {
    user1 in x.members && (x.kind == ChatRoomEntity.Private || x.kind == ChatRoomEntity.Random)
    && user2 in x.members && |x.members| == 2
  }

  /** `findExistingPrivateRoom`: the first of user1's rooms that is a pair room with user2. */
  function FindExistingPrivateRoom(rooms: seq<Room>, user1: UserId, user2: UserId): (r: Option<Room>)
    ensures r.Some? ==> r.value in rooms && IsPairRoom(r.value, user1, user2)
    ensures r.None? <==> forall x :: x in rooms ==> !IsPairRoom(x, user1, user2)
    ensures r.Some? ==> exists k :: 0 <= k < |rooms| && rooms[k] == r.value
                                   && forall j :: 0 <= j < k ==> !IsPairRoom(rooms[j], user1, user2)
  {
    if rooms == [] then None
    else if IsPairRoom(rooms[0], user1, user2) then Some(rooms[0])
    else
      var r := FindExistingPrivateRoom(rooms[1..], user1, user2);
      assert forall j :: 1 <= j < |rooms| ==> rooms[j] == rooms[1..][j - 1];
      assert forall x :: x in rooms ==> x == rooms[0] || x in rooms[1..];
      r
  }

  /** The table with `uid` added to the room `id` (`room.addUser`); unchanged when there is
      no such room. */
  function Joined(rooms: seq<Room>, id: RoomId, uid: UserId): (r: seq<Room>)
    ensures |r| == |rooms|
    ensures forall k :: 0 <= k < |rooms| ==> r[k].id == rooms[k].id
    ensures match FindRoom(rooms, id)
            case None => r == rooms
            case Some(i) => r[i] == rooms[i].(members := rooms[i].members + {uid})
                            && forall k :: 0 <= k < |rooms| && k != i ==> r[k] == rooms[k]
  {
    match FindRoom(rooms, id)
    case None => rooms
    case Some(i) => rooms[i := rooms[i].(members := rooms[i].members + {uid})]
  }

  /** The table with `uid` taken out of the room `id`. */
  function Left(rooms: seq<Room>, id: RoomId, uid: UserId): (r: seq<Room>)
    ensures |r| == |rooms|
    ensures forall k :: 0 <= k < |rooms| ==> r[k].id == rooms[k].id
    ensures match FindRoom(rooms, id)
            case None => r == rooms
            case Some(i) => r[i] == rooms[i].(members := rooms[i].members - {uid})
                            && forall k :: 0 <= k < |rooms| && k != i ==> r[k] == rooms[k]
  {
    match FindRoom(rooms, id)
    case None => rooms
    case Some(i) => rooms[i := rooms[i].(members := rooms[i].members - {uid})]
  }

  /** The table with every member of the room `id` removed (`users.clear()`). */
  function Deactivated(rooms: seq<Room>, id: RoomId): (r: seq<Room>)
    ensures |r| == |rooms|
    ensures forall k :: 0 <= k < |rooms| ==> r[k].id == rooms[k].id
    ensures match FindRoom(rooms, id)
            case None => r == rooms
            case Some(i) => r[i].members == {} && forall k :: 0 <= k < |rooms| && k != i ==> r[k] == rooms[k]
  {
    match FindRoom(rooms, id)
    case None => rooms
    case Some(i) => rooms[i := rooms[i].(members := {})]
  }

  /** Joining is idempotent: a second join changes nothing. */
  lemma JoinedIdempotent(rooms: seq<Room>, id: RoomId, uid: UserId)
    ensures Joined(Joined(rooms, id, uid), id, uid) == Joined(rooms, id, uid)
  {
    var once := Joined(rooms, id, uid);
    match FindRoom(rooms, id)
    case None =>
    case Some(i) =>
      assert FindRoom(once, id) == Some(i);
  }

  /** After a join the user is a member of that room, and no other room changes. */
  lemma JoinedMakesMember(rooms: seq<Room>, id: RoomId, uid: UserId)
    requires FindRoom(rooms, id).Some?
    ensures var i := FindRoom(rooms, id).value;
            uid in Joined(rooms, id, uid)[i].members
            && Joined(rooms, id, uid)[i].members == rooms[i].members + {uid}
            && forall k :: 0 <= k < |rooms| && k != i ==> Joined(rooms, id, uid)[k] == rooms[k]
  {
  }

  /** Leaving undoes joining for a user who was not a member before. */
  lemma LeftUndoesJoined(rooms: seq<Room>, id: RoomId, uid: UserId)
    requires forall k :: 0 <= k < |rooms| && rooms[k].id == id ==> uid !in rooms[k].members
    ensures Left(Joined(rooms, id, uid), id, uid) == rooms
  {
    match FindRoom(rooms, id)
    case None =>
    case Some(i) =>
      var once := Joined(rooms, id, uid);
      assert FindRoom(once, id) == Some(i);
      assert rooms[i].members + {uid} - {uid} == rooms[i].members;
      assert Left(once, id, uid)[i] == rooms[i];
  }

  /** Who may delete a room: a registered caller who created it, or the user "admin". */
  predicate MayDeleteRoom(room: Room, users: map<string, UserId>, username: string) {
    username in users && ((room.createdBy.Some? && room.createdBy.value == users[username]) || username == "admin")
  }

  predicate IsPendingFor(q: JoinRequest, roomId: RoomId, userId: UserId) {
    q.roomId == roomId && q.userId == userId && q.status == Pending
  }

  predicate HasRequest(reqs: seq<JoinRequest>, roomId: RoomId, userId: UserId) {
    exists k :: 0 <= k < |reqs| && reqs[k].roomId == roomId && reqs[k].userId == userId
  }

  predicate HasPendingRequest(reqs: seq<JoinRequest>, roomId: RoomId, userId: UserId) {
    exists k :: 0 <= k < |reqs| && IsPendingFor(reqs[k], roomId, userId)
  }

  /** One request after approval or rejection of the pair's pending requests. */
  function Resolve(q: JoinRequest, roomId: RoomId, userId: UserId, to: RequestStatus): JoinRequest {
    if IsPendingFor(q, roomId, userId) then q.(status := to) else q
  }

  /** The request table after every PENDING request of the pair moves to `to`. */
  function ResolvePending(reqs: seq<JoinRequest>, roomId: RoomId, userId: UserId, to: RequestStatus): seq<JoinRequest> {
    seq(|reqs|, k requires 0 <= k < |reqs| => Resolve(reqs[k], roomId, userId, to))
  }

  /** The request table after the pair's PENDING requests are deleted. */
  function DropPending(reqs: seq<JoinRequest>, roomId: RoomId, userId: UserId): seq<JoinRequest> {
    Filter(reqs, (q: JoinRequest) => !IsPendingFor(q, roomId, userId))
  }

  /** Approving or rejecting leaves the pair with no pending request, changes nothing but
      the status of the pair's pending requests, and keeps every other request as it was. */
  lemma ResolvePendingSettles(reqs: seq<JoinRequest>, roomId: RoomId, userId: UserId, to: RequestStatus)
    requires to != Pending
    ensures var after := ResolvePending(reqs, roomId, userId, to);
            |after| == |reqs|
            && !HasPendingRequest(after, roomId, userId)
            && (forall k :: 0 <= k < |reqs| && !IsPendingFor(reqs[k], roomId, userId) ==> after[k] == reqs[k])
            && (forall k :: 0 <= k < |reqs| && IsPendingFor(reqs[k], roomId, userId) ==>
                  after[k] == reqs[k].(status := to))
  {
  }

  /** Cancelling deletes exactly the pair's pending requests and keeps the others in order. */
  lemma DropPendingSettles(reqs: seq<JoinRequest>, roomId: RoomId, userId: UserId)
    ensures var after := DropPending(reqs, roomId, userId);
            !HasPendingRequest(after, roomId, userId)
            && (forall q :: q in after <==> q in reqs && !IsPendingFor(q, roomId, userId))
            && IsSubseq(after, reqs)
            && (HasPendingRequest(reqs, roomId, userId) ==> |after| < |reqs|)
  {
    var after := DropPending(reqs, roomId, userId);
    forall k | 0 <= k < |after|
      ensures !IsPendingFor(after[k], roomId, userId)
    {
      assert after[k] in after;
    }
    if HasPendingRequest(reqs, roomId, userId) {
      var k :| 0 <= k < |reqs| && IsPendingFor(reqs[k], roomId, userId);
      SubseqMissingShorter(after, reqs, reqs[k]);
    }
  }

  lemma {:induction false} SubseqMissingShorter<T>(a: seq<T>, b: seq<T>, x: T)
    requires IsSubseq(a, b) && x in b && x !in a
    ensures |a| < |b|
    decreases |b|
  {
    if a != [] {
      if a[0] == b[0] && IsSubseq(a[1..], b[1..]) {
        assert x != b[0];
        SubseqMissingShorter(a[1..], b[1..], x);
      } else {
        SubseqLength(a, b[1..]);
      }
    }
  }

  lemma {:induction false} SubseqLength<T>(a: seq<T>, b: seq<T>)
    requires IsSubseq(a, b)
    ensures |a| <= |b|
    decreases |b|
  {
    if a != [] {
      if a[0] == b[0] && IsSubseq(a[1..], b[1..]) {
        SubseqLength(a[1..], b[1..]);
      } else {
        SubseqLength(a, b[1..]);
      }
    }
  }

  /** The approve/reject loop: every PENDING request of the pair gets the new status, and
      `foundPending` records whether there was any. */
  method ResolvePendingRequests(reqs: seq<JoinRequest>, roomId: RoomId, userId: UserId, to: RequestStatus)
    returns (updated: seq<JoinRequest>, foundPending: bool)
    ensures updated == ResolvePending(reqs, roomId, userId, to)
    ensures foundPending <==> HasPendingRequest(reqs, roomId, userId)
  {
    updated := reqs;
    foundPending := false;
    var i := 0;
    while i < |reqs|
      invariant 0 <= i <= |reqs| && |updated| == |reqs|
      invariant forall k :: 0 <= k < i ==> updated[k] == Resolve(reqs[k], roomId, userId, to)
      invariant forall k :: i <= k < |reqs| ==> updated[k] == reqs[k]
      invariant foundPending <==> exists k :: 0 <= k < i && IsPendingFor(reqs[k], roomId, userId)
    {
      if IsPendingFor(updated[i], roomId, userId) {
        updated := updated[i := updated[i].(status := to)];
        foundPending := true;
      }
      i := i + 1;
    }
  }

  /** One more request through the cancel loop. */
  lemma DropPendingStep(reqs: seq<JoinRequest>, i: nat, roomId: RoomId, userId: UserId)
    requires i < |reqs|
    ensures DropPending(reqs[..i + 1], roomId, userId)
            == DropPending(reqs[..i], roomId, userId) + (if IsPendingFor(reqs[i], roomId, userId) then [] else [reqs[i]])
    ensures HasPendingRequest(reqs[..i + 1], roomId, userId)
            <==> HasPendingRequest(reqs[..i], roomId, userId) || IsPendingFor(reqs[i], roomId, userId)
  {
    FilterAppend(reqs[..i], reqs[i], (q: JoinRequest) => !IsPendingFor(q, roomId, userId));
    assert reqs[..i + 1] == reqs[..i] + [reqs[i]];
    assert forall k :: 0 <= k < i ==> reqs[..i + 1][k] == reqs[..i][k];
  }

  /** The cancel loop: every PENDING request of the pair is deleted, and `foundPending`
      records whether there was any. */
  method DeletePendingRequests(reqs: seq<JoinRequest>, roomId: RoomId, userId: UserId)
    returns (kept: seq<JoinRequest>, foundPending: bool)
    ensures kept == DropPending(reqs, roomId, userId)
    ensures foundPending <==> HasPendingRequest(reqs, roomId, userId)
  {
    kept := [];
    foundPending := false;
    var i := 0;
    while i < |reqs|
      invariant 0 <= i <= |reqs|
      invariant kept == DropPending(reqs[..i], roomId, userId)
      invariant foundPending <==> HasPendingRequest(reqs[..i], roomId, userId)
    {
      DropPendingStep(reqs, i, roomId, userId);
      if IsPendingFor(reqs[i], roomId, userId) {
        foundPending := true;
      } else {
        kept := kept + [reqs[i]];
      }
      i := i + 1;
    }
    assert reqs[..i] == reqs;
  }

  predicate HasPendingInvitation(invitations: map<InvitationId, Invitation>, roomId: RoomId, invitee: UserId) {
    exists id :: id in invitations && invitations[id].roomId == roomId && invitations[id].invitee == invitee
                 && invitations[id].status == InvitationPending
  }

  // ---- room icon upload checks ----

  datatype IconError =
    | RoomNotFound
    | NotRoomCreator
    | EmptyFile
    | FileTooLarge
    | InvalidFileName
    | IndexOutOfBounds
    | DisallowedExtension

  /** The extension test as the code is written: `substring(lastIndexOf("."))` on a name
      with no dot is `substring(-1)`, which throws `StringIndexOutOfBoundsException`
      instead of reporting a disallowed file type. */
  function IconExtensionAsWritten(name: string): (r: Result<string, IconError>)
    ensures r.Ok? ==> r.value in AllowedImageExtensions
    ensures r == Err(IndexOutOfBounds) <==> '.' !in name
  {
    var dot := LastIndexOf(name, '.');
    if dot < 0 then Err(IndexOutOfBounds)
    else
      var ext := ToLower(name[dot..]);
      if ext in AllowedImageExtensions then Ok(ext) else Err(DisallowedExtension)
  }

  /** A concrete name that reaches the index error: "photo" has no dot. */
  lemma IconExtensionAsWrittenFailsWithoutDot()
    ensures IconExtensionAsWritten("photo") == Err(IndexOutOfBounds)
  {
    assert '.' !in "photo";
  }

  /** The extension test with a dotless name reported as a disallowed type, as the avatar
      upload's `getFileExtension` does. */
  function IconExtension(name: string): (r: Result<string, IconError>)
    ensures r.Ok? ==> r.value in AllowedImageExtensions
    ensures r.Err? ==> r.error == DisallowedExtension
    ensures '.' !in name ==> r == Err(DisallowedExtension)
    ensures r.Ok? ==> EndsWith(ToLower(name), r.value)
  {
    var dot := LastIndexOf(name, '.');
    if dot < 0 then Err(DisallowedExtension)
    else
      var ext := ToLower(name[dot..]);
      assert ToLower(name)[dot..] == ext;
      if ext in AllowedImageExtensions then Ok(ext) else Err(DisallowedExtension)
  }

  /** The two agree on every name that has a dot; they differ only on dotless names. */
  lemma IconExtensionAgreesWithDot(name: string)
    ensures '.' in name ==> IconExtension(name) == IconExtensionAsWritten(name)
    ensures '.' !in name ==> IconExtensionAsWritten(name) == Err(IndexOutOfBounds)
                             && IconExtension(name) == Err(DisallowedExtension)
  {
  }

  /** The checks `uploadRoomIcon` makes before storing anything, in their order: the room
      exists, the caller created it, the file is non-empty, at most 5 MB, has a name, and
      its lower-cased extension is allowed. The extension is taken as the code takes it,
      so a name without a dot ends in the index error. The result is the extension to
      store under. */
  function ValidateRoomIcon(rooms: seq<Room>, users: map<string, UserId>, roomId: RoomId,
                            username: string, file: UploadedFile): (r: Result<string, IconError>)
    ensures r.Ok? ==> FindRoom(rooms, roomId).Some?
    ensures r.Ok? ==> var room := rooms[FindRoom(rooms, roomId).value];
                      username in users && room.createdBy == Some(users[username])
    ensures r.Ok? ==> 0 < file.size <= MaxFileSize && r.value in AllowedImageExtensions
    ensures FindRoom(rooms, roomId).None? ==> r == Err(RoomNotFound)
    ensures file.size > MaxFileSize && r.Err? ==> r.error != IndexOutOfBounds
    ensures r == Err(IndexOutOfBounds) ==>
              && 0 < file.size <= MaxFileSize
              && file.originalFilename.Some? && '.' !in file.originalFilename.value
  {
    match FindRoom(rooms, roomId)
    case None => Err(RoomNotFound)
    case Some(i) =>
      var room := rooms[i];
      if room.createdBy.None? || username !in users || room.createdBy.value != users[username] then Err(NotRoomCreator)
      else if file.size == 0 then Err(EmptyFile)
      else if file.size > MaxFileSize then Err(FileTooLarge)
      else if file.originalFilename.None? || file.originalFilename.value == [] then Err(InvalidFileName)
      else IconExtensionAsWritten(file.originalFilename.value)
  }

  class ChatRoomService {
    var rooms: seq<Room>
    var users: map<string, UserId>
    var requests: seq<JoinRequest>
    var invitations: map<InvitationId, Invitation>
    var nextRoomId: RoomId
    var nextInvitationId: InvitationId

    ghost predicate Valid()
      reads this
    {
      (forall i, j :: 0 <= i < j < |rooms| ==> rooms[i].id != rooms[j].id)
      && (forall i :: 0 <= i < |rooms| ==> rooms[i].id < nextRoomId)
      && (forall id :: id in invitations ==> id < nextInvitationId)
    }

    constructor (users: map<string, UserId>)
      ensures Valid() && this.users == users
      ensures rooms == [] && requests == [] && invitations == map[]
    {
      this.users := users;
      rooms := [];
      requests := [];
      invitations := map[];
      nextRoomId := 1;
      nextInvitationId := 1;
    }

    /** `joinChatRoom`: a registered user joins an existing room; otherwise nothing happens. */
    method JoinChatRoom(roomId: RoomId, username: string)
      requires Valid()
      modifies this
      ensures Valid()
      ensures rooms == if username in users then Joined(old(rooms), roomId, users[username]) else old(rooms)
      ensures users == old(users) && requests == old(requests) && invitations == old(invitations)
      ensures nextRoomId == old(nextRoomId) && nextInvitationId == old(nextInvitationId)
    {
      if username in users {
        rooms := Joined(rooms, roomId, users[username]);
      }
    }

    /** `leaveChatRoom`: a registered user leaves an existing room; otherwise nothing happens. */
    method LeaveChatRoom(roomId: RoomId, username: string)
      requires Valid()
      modifies this
      ensures Valid()
      ensures rooms == if username in users then Left(old(rooms), roomId, users[username]) else old(rooms)
      ensures users == old(users) && requests == old(requests) && invitations == old(invitations)
      ensures nextRoomId == old(nextRoomId) && nextInvitationId == old(nextInvitationId)
    {
      if username in users {
        rooms := Left(rooms, roomId, users[username]);
      }
    }

    /** `createChatRoom`: an unknown creator is an error; otherwise a new room owned by the
        creator, with the creator as its only member. */
    method CreateChatRoom(name: string, description: Option<string>, creatorName: string,
                          kind: ChatRoomType, isPublic: bool) returns (r: Result<RoomId, RoomError>)
      requires Valid()
      modifies this
      ensures Valid()
      ensures creatorName !in old(users) ==> r == Err(CreatorNotFound) && rooms == old(rooms)
      ensures creatorName in old(users) ==>
                r == Ok(old(nextRoomId))
                && rooms == old(rooms) + [Room(old(nextRoomId), name, description, kind, isPublic,
                                               Some(old(users)[creatorName]), {old(users)[creatorName]})]
      ensures users == old(users) && requests == old(requests) && invitations == old(invitations)
      ensures nextInvitationId == old(nextInvitationId)
    {
      if creatorName !in users {
        return Err(CreatorNotFound);
      }
      var id := nextRoomId;
      var uid := users[creatorName];
      var room := Room(id, name, description, kind, isPublic, Some(uid), {});
      assert forall k :: 0 <= k < |rooms| ==> rooms[k].id != id;
      rooms := rooms + [room];
      nextRoomId := nextRoomId + 1;
      FindAppended(old(rooms), room);
      assert {} + {uid} == {uid};
      assert rooms[|rooms| - 1 := room.(members := {uid})] == old(rooms) + [room.(members := {uid})];
      JoinChatRoom(id, creatorName);
      r := Ok(id);
    }

    /** The three-argument `createChatRoom`: no description, public by default. */
    method CreatePublicChatRoom(name: string, creatorName: string, kind: ChatRoomType)
      returns (r: Result<RoomId, RoomError>)
      requires Valid()
      modifies this
      ensures Valid()
      ensures r.Ok? ==> creatorName in old(users)
                        && rooms == old(rooms) + [Room(r.value, name, None, kind, true,
                                                    Some(old(users)[creatorName]), {old(users)[creatorName]})]
      ensures r.Err? <==> creatorName !in old(users)
    {
      r := CreateChatRoom(name, None, creatorName, kind, true);
    }

    /** `createPrivateRoom`: a PRIVATE room holding only its creator. The code never clears
        the entity's public flag, so the new room is public. */
    method CreatePrivateRoom(name: string, creator: UserId) returns (id: RoomId)
      requires Valid()
      modifies this
      ensures Valid()
      ensures id == old(nextRoomId)
      ensures rooms == old(rooms) + [Room(id, name, None, ChatRoomEntity.Private, true, Some(creator), {creator})]
      ensures users == old(users) && requests == old(requests) && invitations == old(invitations)
      ensures nextInvitationId == old(nextInvitationId)
    {
      id := nextRoomId;
      rooms := rooms + [Room(id, name, None, ChatRoomEntity.Private, true, Some(creator), {creator})];
      nextRoomId := nextRoomId + 1;
    }

    /** `addUserToRoom`: true exactly when the room exists and the user was not yet in it. */
    method AddUserToRoom(roomId: RoomId, uid: UserId) returns (changed: bool)
      requires Valid()
      modifies this
      ensures Valid()
      ensures changed <==> FindRoom(old(rooms), roomId).Some?
                           && uid !in old(rooms)[FindRoom(old(rooms), roomId).value].members
      ensures rooms == Joined(old(rooms), roomId, uid)
      ensures users == old(users) && requests == old(requests) && invitations == old(invitations)
      ensures nextRoomId == old(nextRoomId) && nextInvitationId == old(nextInvitationId)
    {
      changed := false;
      var idx := FindRoom(rooms, roomId);
      if idx.Some? && uid !in rooms[idx.value].members {
        rooms := Joined(rooms, roomId, uid);
        changed := true;
      } else if idx.Some? {
        assert rooms[idx.value].members + {uid} == rooms[idx.value].members;
        assert Joined(rooms, roomId, uid) == rooms;
      }
    }

    /** `removeUserFromRoom`: true exactly when the room exists and the user was in it. */
    method RemoveUserFromRoom(roomId: RoomId, uid: UserId) returns (changed: bool)
      requires Valid()
      modifies this
      ensures Valid()
      ensures changed <==> FindRoom(old(rooms), roomId).Some?
                           && uid in old(rooms)[FindRoom(old(rooms), roomId).value].members
      ensures rooms == Left(old(rooms), roomId, uid)
      ensures users == old(users) && requests == old(requests) && invitations == old(invitations)
      ensures nextRoomId == old(nextRoomId) && nextInvitationId == old(nextInvitationId)
    {
      changed := false;
      var idx := FindRoom(rooms, roomId);
      if idx.Some? && uid in rooms[idx.value].members {
        rooms := Left(rooms, roomId, uid);
        changed := true;
      } else if idx.Some? {
        assert rooms[idx.value].members - {uid} == rooms[idx.value].members;
        assert Left(rooms, roomId, uid) == rooms;
      }
    }

    /** `deactivateRoom`: an existing room loses all its members. */
    method DeactivateRoom(roomId: RoomId)
      requires Valid()
      modifies this
      ensures Valid()
      ensures rooms == Deactivated(old(rooms), roomId)
      ensures users == old(users) && requests == old(requests) && invitations == old(invitations)
      ensures nextRoomId == old(nextRoomId) && nextInvitationId == old(nextInvitationId)
    {
      rooms := Deactivated(rooms, roomId);
    }

    /** `deleteChatRoom`: the room is removed, and true returned, exactly when it exists and
        `MayDeleteRoom` allows the caller. */
    method DeleteChatRoom(roomId: RoomId, username: string) returns (deleted: bool)
      requires Valid()
      modifies this
      ensures Valid()
      ensures deleted <==> FindRoom(old(rooms), roomId).Some?
                           && MayDeleteRoom(old(rooms)[FindRoom(old(rooms), roomId).value], old(users), username)
      ensures deleted ==> var i := FindRoom(old(rooms), roomId).value;
                          rooms == old(rooms)[..i] + old(rooms)[i + 1..]
      ensures !deleted ==> rooms == old(rooms)
      ensures users == old(users) && requests == old(requests) && invitations == old(invitations)
      ensures nextRoomId == old(nextRoomId) && nextInvitationId == old(nextInvitationId)
    {
      deleted := false;
      var idx := FindRoom(rooms, roomId);
      if idx.Some? && MayDeleteRoom(rooms[idx.value], users, username) {
        var i := idx.value;
        rooms := rooms[..i] + rooms[i + 1..];
        deleted := true;
      }
    }

    /** `requestJoinRoom`: the room and user must exist, the user must not be a member and
        must have no pending request for the room; then one PENDING request is added. */
    method RequestJoinRoom(roomId: RoomId, username: string) returns (r: Result<(), RoomError>)
      requires Valid()
      modifies this
      ensures Valid()
      ensures var idx := FindRoom(old(rooms), roomId);
              if idx.None? || username !in old(users) then r == Err(RoomOrUserNotFound)
              else if old(users)[username] in old(rooms)[idx.value].members then r == Err(AlreadyMember)
              else if HasPendingRequest(old(requests), roomId, old(users)[username]) then r == Err(AlreadyRequested)
              else r == Ok(())
      ensures r.Ok? ==> requests == old(requests) + [JoinRequest(roomId, old(users)[username], Pending)]
      ensures r.Err? ==> requests == old(requests)
      ensures rooms == old(rooms) && users == old(users) && invitations == old(invitations)
      ensures nextRoomId == old(nextRoomId) && nextInvitationId == old(nextInvitationId)
    {
      var idx := FindRoom(rooms, roomId);
      if idx.None? || username !in users {
        return Err(RoomOrUserNotFound);
      }
      var uid := users[username];
      if uid in rooms[idx.value].members {
        return Err(AlreadyMember);
      }
      if HasPendingRequest(requests, roomId, uid) {
        return Err(AlreadyRequested);
      }
      requests := requests + [JoinRequest(roomId, uid, Pending)];
      r := Ok(());
    }

    /** `cancelJoinRequest`: with no request at all for the pair, or none still pending, it
        fails; otherwise every pending request of the pair is deleted. */
    method CancelJoinRequest(roomId: RoomId, username: string) returns (r: Result<(), RoomError>)
      requires Valid()
      modifies this
      ensures Valid()
      ensures var idx := FindRoom(old(rooms), roomId);
              if idx.None? || username !in old(users) then r == Err(RoomOrUserNotFound)
              else if !HasRequest(old(requests), roomId, old(users)[username]) then r == Err(RequestNotFound)
              else if !HasPendingRequest(old(requests), roomId, old(users)[username]) then r == Err(NoPendingRequest)
              else r == Ok(())
      ensures r.Ok? ==> requests == DropPending(old(requests), roomId, old(users)[username])
      ensures r.Err? ==> requests == old(requests)
      ensures rooms == old(rooms) && users == old(users) && invitations == old(invitations)
      ensures nextRoomId == old(nextRoomId) && nextInvitationId == old(nextInvitationId)
    {
      var idx := FindRoom(rooms, roomId);
      if idx.None? || username !in users {
        return Err(RoomOrUserNotFound);
      }
      var uid := users[username];
      if !HasRequest(requests, roomId, uid) {
        return Err(RequestNotFound);
      }
      var kept, foundPending := DeletePendingRequests(requests, roomId, uid);
      if !foundPending {
        return Err(NoPendingRequest);
      }
      requests := kept;
      r := Ok(());
    }

    /** The checks approve and reject share: room, applicant and creator exist, the room has
        a creator and it is the caller, and the applicant has some request for the room. */
    function DecisionCheck(roomId: RoomId, applicant: string, creator: string): (r: Result<UserId, RoomError>)
      reads this
      ensures r.Ok? ==> applicant in users && r.value == users[applicant]
      ensures r.Ok? ==> FindRoom(rooms, roomId).Some? && creator in users
                        && rooms[FindRoom(rooms, roomId).value].createdBy == Some(users[creator])
      ensures r.Ok? ==> HasRequest(requests, roomId, r.value)
    {
      var idx := FindRoom(rooms, roomId);
      if idx.None? || applicant !in users || creator !in users then Err(RoomOrUserNotFound)
      else if rooms[idx.value].createdBy != Some(users[creator]) then Err(NotCreator)
      else if !HasRequest(requests, roomId, users[applicant]) then Err(RequestNotFound)
      else Ok(users[applicant])
    }

    /** `approveJoinRequest`: after `DecisionCheck`, every pending request of the applicant
        becomes APPROVED and the applicant joins the room; with none pending it fails and
        nothing changes. */
    method ApproveJoinRequest(roomId: RoomId, applicant: string, creator: string) returns (r: Result<(), RoomError>)
      requires Valid()
      modifies this
      ensures Valid()
      ensures var check := old(DecisionCheck(roomId, applicant, creator));
              if check.Err? then r == Err(check.error)
              else if !HasPendingRequest(old(requests), roomId, check.value) then r == Err(NoPendingRequest)
              else r == Ok(())
      ensures r.Ok? ==> requests == ResolvePending(old(requests), roomId, old(users)[applicant], Approved)
                        && rooms == Joined(old(rooms), roomId, old(users)[applicant])
      ensures r.Err? ==> requests == old(requests) && rooms == old(rooms)
      ensures users == old(users) && invitations == old(invitations)
      ensures nextRoomId == old(nextRoomId) && nextInvitationId == old(nextInvitationId)
    {
      var check := DecisionCheck(roomId, applicant, creator);
      if check.Err? {
        return Err(check.error);
      }
      var updated, foundPending := ResolvePendingRequests(requests, roomId, check.value, Approved);
      if !foundPending {
        return Err(NoPendingRequest);
      }
      requests := updated;
      JoinChatRoom(roomId, applicant);
      r := Ok(());
    }

    /** `rejectJoinRequest`: after `DecisionCheck`, every pending request of the applicant
        becomes REJECTED; membership does not change. */
    method RejectJoinRequest(roomId: RoomId, applicant: string, creator: string) returns (r: Result<(), RoomError>)
      requires Valid()
      modifies this
      ensures Valid()
      ensures var check := old(DecisionCheck(roomId, applicant, creator));
              if check.Err? then r == Err(check.error)
              else if !HasPendingRequest(old(requests), roomId, check.value) then r == Err(NoPendingRequest)
              else r == Ok(())
      ensures r.Ok? ==> requests == ResolvePending(old(requests), roomId, old(users)[applicant], Rejected)
      ensures r.Err? ==> requests == old(requests)
      ensures rooms == old(rooms) && users == old(users) && invitations == old(invitations)
      ensures nextRoomId == old(nextRoomId) && nextInvitationId == old(nextInvitationId)
    {
      var check := DecisionCheck(roomId, applicant, creator);
      if check.Err? {
        return Err(check.error);
      }
      var updated, foundPending := ResolvePendingRequests(requests, roomId, check.value, Rejected);
      if !foundPending {
        return Err(NoPendingRequest);
      }
      requests := updated;
      r := Ok(());
    }

    /** `inviteUserToRoom`: room, inviter and invitee exist, the invitee is not a member and
        has no pending invitation to the room; then a new PENDING invitation is stored.
        The inviter's own membership is not checked. */
    method InviteUserToRoom(roomId: RoomId, inviter: string, invitee: string)
      returns (r: Result<InvitationId, RoomError>)
      requires Valid()
      modifies this
      ensures Valid()
      ensures var idx := FindRoom(old(rooms), roomId);
              if idx.None? || inviter !in old(users) || invitee !in old(users) then r == Err(RoomOrUserNotFound)
              else if old(users)[invitee] in old(rooms)[idx.value].members then r == Err(AlreadyMember)
              else if HasPendingInvitation(old(invitations), roomId, old(users)[invitee]) then r == Err(AlreadyInvited)
              else r == Ok(old(nextInvitationId))
      ensures r.Ok? ==> r.value !in old(invitations)
                        && invitations == old(invitations)[r.value := Invitation(roomId, old(users)[inviter],
                                                                             old(users)[invitee], InvitationPending, None)]
      ensures r.Err? ==> invitations == old(invitations)
      ensures rooms == old(rooms) && users == old(users) && requests == old(requests)
      ensures nextRoomId == old(nextRoomId)
    {
      var idx := FindRoom(rooms, roomId);
      if idx.None? || inviter !in users || invitee !in users {
        return Err(RoomOrUserNotFound);
      }
      if users[invitee] in rooms[idx.value].members {
        return Err(AlreadyMember);
      }
      if HasPendingInvitation(invitations, roomId, users[invitee]) {
        return Err(AlreadyInvited);
      }
      var id := nextInvitationId;
      invitations := invitations[id := Invitation(roomId, users[inviter], users[invitee], InvitationPending, None)];
      nextInvitationId := nextInvitationId + 1;
      r := Ok(id);
    }

    /** The checks accept and reject share: the invitation and user exist, the user is the
        invitee, and the invitation is still pending. */
    function InvitationCheck(invitationId: InvitationId, username: string): (r: Result<Invitation, RoomError>)
      reads this
      ensures r.Ok? ==> invitationId in invitations && r.value == invitations[invitationId]
      ensures r.Ok? ==> username in users && r.value.invitee == users[username]
                        && r.value.status == InvitationPending
    {
      if invitationId !in invitations || username !in users then Err(InvitationOrUserNotFound)
      else if invitations[invitationId].invitee != users[username] then Err(NotInvitee)
      else if invitations[invitationId].status != InvitationPending then Err(AlreadyProcessed)
      else Ok(invitations[invitationId])
    }

    /** `acceptInvitation`: after `InvitationCheck`, the invitation becomes ACCEPTED at
        `now` and the invitee joins the room. */
    method AcceptInvitation(invitationId: InvitationId, username: string, now: Millis)
      returns (r: Result<(), RoomError>)
      requires Valid()
      modifies this
      ensures Valid()
      ensures var check := old(InvitationCheck(invitationId, username));
              if check.Err? then r == Err(check.error) else r == Ok(())
      ensures r.Ok? ==> var inv := old(invitations)[invitationId];
                        invitations == old(invitations)[invitationId := inv.(status := Accepted, processedAt := Some(now))]
                        && rooms == Joined(old(rooms), inv.roomId, old(users)[username])
      ensures r.Err? ==> invitations == old(invitations) && rooms == old(rooms)
      ensures users == old(users) && requests == old(requests)
      ensures nextRoomId == old(nextRoomId) && nextInvitationId == old(nextInvitationId)
    {
      var check := InvitationCheck(invitationId, username);
      if check.Err? {
        return Err(check.error);
      }
      var inv := check.value;
      invitations := invitations[invitationId := inv.(status := Accepted, processedAt := Some(now))];
      JoinChatRoom(inv.roomId, username);
      r := Ok(());
    }

    /** `rejectInvitation`: after `InvitationCheck`, the invitation becomes REJECTED at `now`;
        membership does not change. */
    method RejectInvitation(invitationId: InvitationId, username: string, now: Millis)
      returns (r: Result<(), RoomError>)
      requires Valid()
      modifies this
      ensures Valid()
      ensures var check := old(InvitationCheck(invitationId, username));
              if check.Err? then r == Err(check.error) else r == Ok(())
      ensures r.Ok? ==> var inv := old(invitations)[invitationId];
                        invitations == old(invitations)[invitationId := inv.(status := Declined, processedAt := Some(now))]
      ensures r.Err? ==> invitations == old(invitations)
      ensures rooms == old(rooms) && users == old(users) && requests == old(requests)
      ensures nextRoomId == old(nextRoomId) && nextInvitationId == old(nextInvitationId)
    {
      var check := InvitationCheck(invitationId, username);
      if check.Err? {
        return Err(check.error);
      }
      var inv := check.value;
      invitations := invitations[invitationId := inv.(status := Declined, processedAt := Some(now))];
      r := Ok(());
    }
  }
}

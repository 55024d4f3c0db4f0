/** `FriendshipService`: one relation per pair of users, moving between PENDING, ACCEPTED,
    DECLINED and BLOCKED; the requester/addressee checks guarding each transition; and the
    derived status text and request permission. */
module Friendships {
  import opened Wrappers
  import opened Ids

  datatype FriendshipStatus = FriendPending | FriendAccepted | FriendDeclined | FriendBlocked

  datatype Friendship = Friendship(id: nat, requester: UserId, addressee: UserId, status: FriendshipStatus)

  /** The relation is between `a` and `b`, in either direction. */
  predicate Connects(f: Friendship, a: UserId, b: UserId) {
    (f.requester == a && f.addressee == b) || (f.requester == b && f.addressee == a)
  }

  /** `findBetweenUsers`: the position of the relation between the two users. */
  function FindBetween(rels: seq<Friendship>, a: UserId, b: UserId): (r: Option<nat>)
    ensures r.Some? ==> r.value < |rels| && Connects(rels[r.value], a, b)
    ensures r.Some? ==> forall k :: 0 <= k < r.value ==> !Connects(rels[k], a, b)
    ensures r.None? <==> forall k :: 0 <= k < |rels| ==> !Connects(rels[k], a, b)
  {
    if rels == [] then None
    else if Connects(rels[0], a, b) then Some(0)
    else
      match FindBetween(rels[1..], a, b)
      case None => None
      case Some(k) => Some(k + 1)
  }

  lemma {:induction false} FindBetweenAt(rels: seq<Friendship>, a: UserId, b: UserId, i: nat)
    requires i < |rels| && Connects(rels[i], a, b)
    requires forall k :: 0 <= k < i ==> !Connects(rels[k], a, b)
    ensures FindBetween(rels, a, b) == Some(i)
  {
    if i > 0 {
      FindBetweenAt(rels[1..], a, b, i - 1);
    }
  }

  function Relation(rels: seq<Friendship>, a: UserId, b: UserId): (r: Option<Friendship>)
    ensures r.Some? ==> r.value in rels && Connects(r.value, a, b)
    ensures r.None? <==> forall f :: f in rels ==> !Connects(f, a, b)
  {
    match FindBetween(rels, a, b)
    case None => None
    case Some(i) => Some(rels[i])
  }

  /** The lookup does not depend on the order of the two users. */
  lemma {:induction false} FindBetweenSymmetric(rels: seq<Friendship>, a: UserId, b: UserId)
    ensures FindBetween(rels, a, b) == FindBetween(rels, b, a)
  {
    if rels != [] {
      FindBetweenSymmetric(rels[1..], a, b);
    }
  }

  /** At most one relation per pair of users. */
  predicate OnePerPair(rels: seq<Friendship>) {
    forall i, j :: 0 <= i < j < |rels| ==> !Connects(rels[j], rels[i].requester, rels[i].addressee)
  }

  /** The table's invariant: one relation per pair, distinct ids, all below `nextId`. */
  ghost predicate Indexed(rels: seq<Friendship>, nextId: nat) {
    OnePerPair(rels)
    && (forall i, j :: 0 <= i < j < |rels| ==> rels[i].id != rels[j].id)
    && (forall i :: 0 <= i < |rels| ==> rels[i].id < nextId)
  }

  /** Deleting one relation keeps the invariant. */
  lemma RemovalKeepsIndex(rels: seq<Friendship>, k: nat, nextId: nat)
    requires Indexed(rels, nextId) && k < |rels|
    ensures Indexed(rels[..k] + rels[k + 1..], nextId)
  {
    var rest := rels[..k] + rels[k + 1..];
    assert forall x :: 0 <= x < |rest| ==> rest[x] == if x < k then rels[x] else rels[x + 1];
    forall i, j | 0 <= i < j < |rest|
      ensures !Connects(rest[j], rest[i].requester, rest[i].addressee) && rest[i].id != rest[j].id
    {
      var i', j' := if i < k then i else i + 1, if j < k then j else j + 1;
      assert rest[i] == rels[i'] && rest[j] == rels[j'] && i' < j';
    }
  }

  /** `getFriendshipStatus(user1, user2)`. */
  function StatusText(rels: seq<Friendship>, u1: UserId, u2: UserId): (r: string)
    ensures r == "self" <==> u1 == u2
    ensures r == "none" <==> u1 != u2 && Relation(rels, u1, u2).None?
    ensures r == "friends" <==> u1 != u2 && Relation(rels, u1, u2).Some? && Relation(rels, u1, u2).value.status == FriendAccepted
    ensures r == "declined" <==> u1 != u2 && Relation(rels, u1, u2).Some? && Relation(rels, u1, u2).value.status == FriendDeclined
    ensures r == "sent_request" <==> u1 != u2 && Relation(rels, u1, u2).Some?
                                     && Relation(rels, u1, u2).value.status == FriendPending
                                     && Relation(rels, u1, u2).value.requester == u1
    ensures r == "received_request" <==> u1 != u2 && Relation(rels, u1, u2).Some?
                                         && Relation(rels, u1, u2).value.status == FriendPending
                                         && Relation(rels, u1, u2).value.requester != u1
    ensures r == "blocked_by_you" <==> u1 != u2 && Relation(rels, u1, u2).Some?
                                       && Relation(rels, u1, u2).value.status == FriendBlocked
                                       && Relation(rels, u1, u2).value.requester == u1
    ensures r == "blocked_by_them" <==> u1 != u2 && Relation(rels, u1, u2).Some?
                                        && Relation(rels, u1, u2).value.status == FriendBlocked
                                        && Relation(rels, u1, u2).value.requester != u1
  {
    if u1 == u2 then "self"
    else
      match Relation(rels, u1, u2)
      case None => "none"
      case Some(f) =>
        match f.status
        case FriendAccepted => "friends"
        case FriendPending => if f.requester == u1 then "sent_request" else "received_request"
        case FriendBlocked => if f.requester == u1 then "blocked_by_you" else "blocked_by_them"
        case FriendDeclined => "declined"
  }

  /** Seen from the other side, a sent request is a received one and a block by you is a
      block by them; every other status reads the same. */
  lemma StatusTextMirror(rels: seq<Friendship>, u1: UserId, u2: UserId)
    requires u1 != u2
    ensures StatusText(rels, u1, u2) == "sent_request" <==> StatusText(rels, u2, u1) == "received_request"
    ensures StatusText(rels, u1, u2) == "blocked_by_you" <==> StatusText(rels, u2, u1) == "blocked_by_them"
    ensures StatusText(rels, u1, u2) in {"none", "friends", "declined"} ==> StatusText(rels, u2, u1) == StatusText(rels, u1, u2)
  {
    FindBetweenSymmetric(rels, u1, u2);
  }

  /** `canSendFriendRequest`: not to oneself, and either no relation or a declined one;
      that is, exactly when the status reads "none" or "declined". */
  function CanSendFriendRequest(rels: seq<Friendship>, requester: UserId, addressee: UserId): (r: bool)
    ensures r <==> StatusText(rels, requester, addressee) in {"none", "declined"}
  {
    requester != addressee
    && (Relation(rels, requester, addressee).None? || Relation(rels, requester, addressee).value.status == FriendDeclined)
  }

  /** `areFriends`: for two different users, exactly when the status reads "friends"; in
      either order. */
  function AreFriends(rels: seq<Friendship>, a: UserId, b: UserId): (r: bool)
    ensures a != b ==> (r <==> StatusText(rels, a, b) == "friends")
    ensures r == (Relation(rels, b, a).Some? && Relation(rels, b, a).value.status == FriendAccepted)
  {
    FindBetweenSymmetric(rels, a, b);
    Relation(rels, a, b).Some? && Relation(rels, a, b).value.status == FriendAccepted
  }

  /** `isBlocked`: blocked in either direction; for two different users, exactly when the
      status reads "blocked_by_you" or "blocked_by_them". */
  function IsBlocked(rels: seq<Friendship>, a: UserId, b: UserId): (r: bool)
    ensures a != b ==> (r <==> StatusText(rels, a, b) in {"blocked_by_you", "blocked_by_them"})
    ensures r == (Relation(rels, b, a).Some? && Relation(rels, b, a).value.status == FriendBlocked)
  {
    FindBetweenSymmetric(rels, a, b);
    Relation(rels, a, b).Some? && Relation(rels, a, b).value.status == FriendBlocked
  }

  /** The relation between `a` and `b` rewritten to requester `a`, addressee `b` and status
      `s`: the existing row in place, or a new row with id `newId`. */
  function Reset(rels: seq<Friendship>, a: UserId, b: UserId, s: FriendshipStatus, newId: nat): (r: seq<Friendship>)
    ensures Relation(r, a, b).Some?
    ensures var f := Relation(r, a, b).value; f.requester == a && f.addressee == b && f.status == s
    ensures FindBetween(rels, a, b).Some? ==> |r| == |rels| && Relation(r, a, b).value.id == Relation(rels, a, b).value.id
    ensures FindBetween(rels, a, b).None? ==> r == rels + [Friendship(newId, a, b, s)]
    ensures forall k :: 0 <= k < |rels| && !Connects(rels[k], a, b) ==> r[k] == rels[k]
  {
    match FindBetween(rels, a, b)
    case None =>
      var r := rels + [Friendship(newId, a, b, s)];
      FindBetweenAt(r, a, b, |rels|);
      r
    case Some(i) =>
      var r := rels[i := Friendship(rels[i].id, a, b, s)];
      FindBetweenAt(r, a, b, i);
      r
  }

  /** Resetting keeps one relation per pair. */
  lemma ResetKeepsOnePerPair(rels: seq<Friendship>, a: UserId, b: UserId, s: FriendshipStatus, newId: nat)
    requires OnePerPair(rels)
    ensures OnePerPair(Reset(rels, a, b, s, newId))
  {
    var r := Reset(rels, a, b, s, newId);
    forall i, j | 0 <= i < j < |r| ensures !Connects(r[j], r[i].requester, r[i].addressee) {
      assert Connects(r[j], r[i].requester, r[i].addressee) <==> Connects(r[i], r[j].requester, r[j].addressee);
      if j < |rels| {
        assert Connects(rels[j], rels[i].requester, rels[i].addressee) <==> Connects(r[j], r[i].requester, r[i].addressee);
      }
    }
  }

  /** After a request, the sender sees "sent_request" and the addressee "received_request". */
  lemma RequestReadsAsSent(rels: seq<Friendship>, a: UserId, b: UserId, newId: nat)
    requires a != b
    ensures StatusText(Reset(rels, a, b, FriendPending, newId), a, b) == "sent_request"
    ensures StatusText(Reset(rels, a, b, FriendPending, newId), b, a) == "received_request"
  {
    FindBetweenSymmetric(Reset(rels, a, b, FriendPending, newId), a, b);
  }

  /** After `blockUser(a, b)`, `a` sees "blocked_by_you", `b` sees "blocked_by_them", and
      neither may send a request. */
  lemma BlockReadsAsBlocked(rels: seq<Friendship>, a: UserId, b: UserId, newId: nat)
    requires a != b
    ensures var r := Reset(rels, a, b, FriendBlocked, newId);
            StatusText(r, a, b) == "blocked_by_you" && StatusText(r, b, a) == "blocked_by_them"
            && IsBlocked(r, a, b) && !CanSendFriendRequest(r, a, b) && !CanSendFriendRequest(r, b, a)
  {
    FindBetweenSymmetric(Reset(rels, a, b, FriendBlocked, newId), a, b);
  }

  /** The other user of a relation (`getFriendOf`). */
  function FriendOf(f: Friendship, user: UserId): UserId {
    if f.requester == user then f.addressee else f.requester
  }

  /** The user is one side of the relation. */
  predicate Involves(f: Friendship, user: UserId) {
    f.requester == user || f.addressee == user
  }

  /** `getFriends` as written: `findAcceptedFriendships` selects every relation in which the
      user is either side, whatever its status, and each row gives its other user, in table
      order. */
  function Friends(rels: seq<Friendship>, user: UserId): (r: seq<UserId>)
    ensures |r| <= |rels|
    ensures forall x :: x in r <==> exists f :: f in rels && Involves(f, user) && x == FriendOf(f, user)
  {
    if rels == [] then []
    else
      var f := rels[0];
      assert forall g :: g in rels <==> g == f || g in rels[1..];
      (if Involves(f, user) then [FriendOf(f, user)] else []) + Friends(rels[1..], user)
  }

  /** The friend list the query's name promises: the other user of every ACCEPTED relation
      involving `user`, in table order. Every one of them is also in the list as written. */
  function AcceptedFriends(rels: seq<Friendship>, user: UserId): (r: seq<UserId>)
    ensures forall x :: x in r <==>
              exists f :: f in rels && f.status == FriendAccepted && Involves(f, user) && x == FriendOf(f, user)
    ensures forall x :: x in r ==> x in Friends(rels, user)
  {
    if rels == [] then []
    else
      var f := rels[0];
      assert forall g :: g in rels <==> g == f || g in rels[1..];
      (if f.status == FriendAccepted && Involves(f, user) then [FriendOf(f, user)] else [])
        + AcceptedFriends(rels[1..], user)
  }

  /** As written, a pending request already lists the requester among the addressee's
      friends; the accepted-only list does not. */
  lemma PendingRequestListedAsWritten(a: UserId, b: UserId)
    requires a != b
    ensures Friends([Friendship(1, a, b, FriendPending)], b) == [a]
    ensures AcceptedFriends([Friendship(1, a, b, FriendPending)], b) == []
  {
  }

  /** As written, any relation between two different users, in whatever status, puts each
      of them in the other's list. */
  lemma FriendsSymmetric(rels: seq<Friendship>, a: UserId, b: UserId)
    requires Relation(rels, a, b).Some? && a != b
    ensures b in Friends(rels, a) && a in Friends(rels, b)
  {
    var f := Relation(rels, a, b).value;
    assert FriendOf(f, a) == b && FriendOf(f, b) == a;
  }

  /** Two different users who are friends each appear in the other's accepted list. */
  lemma AcceptedFriendsSymmetric(rels: seq<Friendship>, a: UserId, b: UserId)
    requires AreFriends(rels, a, b) && a != b
    ensures b in AcceptedFriends(rels, a) && a in AcceptedFriends(rels, b)
  {
    var f := Relation(rels, a, b).value;
    assert FriendOf(f, a) == b && FriendOf(f, b) == a;
  }

  datatype FriendError =
    | SelfRequest | AlreadyRequested | AlreadyFriends | OperationNotAllowed
    | RequestNotFound | NotAddressee | AlreadyProcessed | NotInvolved | SelfBlock

  /** `findById`: the position of the relation with this id. */
  function FindById(rels: seq<Friendship>, id: nat): (r: Option<nat>)
    ensures r.Some? ==> r.value < |rels| && rels[r.value].id == id
    ensures r.None? <==> forall k :: 0 <= k < |rels| ==> rels[k].id != id
  {
    if rels == [] then None
    else if rels[0].id == id then Some(0)
    else
      match FindById(rels[1..], id)
      case None => None
      case Some(k) => Some(k + 1)
  }

  /** The checks of `acceptFriendRequest` and `declineFriendRequest`, in order: the relation
      exists, the caller is its addressee, and it is still PENDING. */
  function ResponseCheck(rels: seq<Friendship>, addressee: UserId, id: nat): (r: Result<nat, FriendError>)
    ensures r.Ok? ==> r.value < |rels| && rels[r.value].id == id
                      && rels[r.value].addressee == addressee && rels[r.value].status == FriendPending
    ensures FindById(rels, id).None? <==> r == Err(RequestNotFound)
    ensures r.Ok? <==> FindById(rels, id).Some? && rels[FindById(rels, id).value].addressee == addressee
                       && rels[FindById(rels, id).value].status == FriendPending
  {
    match FindById(rels, id)
    case None => Err(RequestNotFound)
    case Some(i) =>
      if rels[i].addressee != addressee then Err(NotAddressee)
      else if rels[i].status != FriendPending then Err(AlreadyProcessed)
      else Ok(i)
  }

  class FriendshipService {
    var relations: seq<Friendship>
    var nextId: nat

    ghost predicate Valid()
      reads this
    {
      Indexed(relations, nextId)
    }

    constructor ()
      ensures Valid() && relations == []
    {
      relations := [];
      nextId := 1;
    }

    /** Writes `Reset` into the table, taking a fresh id when a row is added. */
    method Store(a: UserId, b: UserId, s: FriendshipStatus)
      requires Valid()
      modifies this
      ensures Valid()
      ensures relations == Reset(old(relations), a, b, s, old(nextId))
    {
      ResetKeepsOnePerPair(relations, a, b, s, nextId);
      var r := Reset(relations, a, b, s, nextId);
      if FindBetween(relations, a, b).None? {
        nextId := nextId + 1;
      } else {
        var i := FindBetween(relations, a, b).value;
        assert r == relations[i := Friendship(relations[i].id, a, b, s)];
      }
      relations := r;
    }

    /** `sendFriendRequest`: refused for oneself and for a PENDING, ACCEPTED or BLOCKED
        relation; a DECLINED relation is reset to PENDING from the new requester, and
        otherwise a new PENDING relation is added. */
    method SendFriendRequest(requester: UserId, addressee: UserId) returns (r: Result<(), FriendError>)
      requires Valid()
      modifies this
      ensures Valid()
      ensures r.Ok? <==> CanSendFriendRequest(old(relations), requester, addressee)
      ensures requester == addressee ==> r == Err(SelfRequest)
      ensures requester != addressee && Relation(old(relations), requester, addressee).Some? ==>
                match Relation(old(relations), requester, addressee).value.status
                case FriendPending => r == Err(AlreadyRequested)
                case FriendAccepted => r == Err(AlreadyFriends)
                case FriendBlocked => r == Err(OperationNotAllowed)
                case FriendDeclined => r.Ok?
      ensures r.Err? ==> relations == old(relations)
      ensures r.Ok? ==> relations == Reset(old(relations), requester, addressee, FriendPending, old(nextId))
    {
      if requester == addressee {
        return Err(SelfRequest);
      }
      var existing := Relation(relations, requester, addressee);
      if existing.Some? {
        match existing.value.status
        case FriendPending => return Err(AlreadyRequested);
        case FriendAccepted => return Err(AlreadyFriends);
        case FriendBlocked => return Err(OperationNotAllowed);
        case FriendDeclined =>
      }
      Store(requester, addressee, FriendPending);
      r := Ok(());
    }

    /** `acceptFriendRequest` and `declineFriendRequest`: after `ResponseCheck`, only the
        status of that relation changes. */
    method Respond(addressee: UserId, id: nat, accept: bool) returns (r: Result<(), FriendError>)
      requires Valid()
      modifies this
      ensures Valid()
      ensures var check := ResponseCheck(old(relations), addressee, id);
              (check.Err? ==> r == Err(check.error) && relations == old(relations))
              && (check.Ok? ==> r.Ok? && relations == old(relations)[check.value :=
                    old(relations)[check.value].(status := if accept then FriendAccepted else FriendDeclined)])
      ensures nextId == old(nextId)
    {
      var check := ResponseCheck(relations, addressee, id);
      if check.Err? {
        return Err(check.error);
      }
      var i := check.value;
      relations := relations[i := relations[i].(status := if accept then FriendAccepted else FriendDeclined)];
      r := Ok(());
    }

    /** `removeFriend`: the relation must exist and involve the caller; it is deleted. */
    method RemoveFriend(user: UserId, id: nat) returns (r: Result<(), FriendError>)
      requires Valid()
      modifies this
      ensures Valid()
      ensures var idx := FindById(old(relations), id);
              (idx.None? ==> r == Err(RequestNotFound) && relations == old(relations))
              && (idx.Some? && user != old(relations)[idx.value].requester && user != old(relations)[idx.value].addressee ==>
                    r == Err(NotInvolved) && relations == old(relations))
              && (r.Ok? ==> idx.Some? && relations == old(relations)[..idx.value] + old(relations)[idx.value + 1..])
      ensures r.Ok? <==> FindById(old(relations), id).Some?
                         && (user == old(relations)[FindById(old(relations), id).value].requester
                             || user == old(relations)[FindById(old(relations), id).value].addressee)
    {
      var idx := FindById(relations, id);
      if idx.None? {
        return Err(RequestNotFound);
      }
      var i := idx.value;
      if user != relations[i].requester && user != relations[i].addressee {
        return Err(NotInvolved);
      }
      RemovalKeepsIndex(relations, i, nextId);
      relations := relations[..i] + relations[i + 1..];
      r := Ok(());
    }

    /** `blockUser`: refused for oneself; otherwise the pair's relation becomes BLOCKED with
        the blocker as requester, added if there was none. */
    method BlockUser(blocker: UserId, blocked: UserId) returns (r: Result<(), FriendError>)
      requires Valid()
      modifies this
      ensures Valid()
      ensures r.Err? <==> blocker == blocked
      ensures r.Err? ==> r == Err(SelfBlock) && relations == old(relations)
      ensures r.Ok? ==> relations == Reset(old(relations), blocker, blocked, FriendBlocked, old(nextId))
    {
      if blocker == blocked {
        return Err(SelfBlock);
      }
      Store(blocker, blocked, FriendBlocked);
      r := Ok(());
    }
  }
}

/** `OnlineUserService`: the table of online users keyed by username, with its status
    updates, removal by session, the inactivity sweep and the per-status counts. User
    lookups in the database are parameters, and the broadcasts are left out. */
module OnlineUsers {
  import opened Wrappers
  import opened Ids
  import opened Collections

  datatype OnlineUserInfo = OnlineUserInfo(username: string, displayName: string, userId: UserId,
                                           status: string, lastActiveTime: Millis, sessionId: string)

  /** What `setUserOnline` learns from the user and profile tables. */
  datatype Account = Account(id: UserId, displayName: string)

  const InactiveMinutes: int := 30

  /** The names of the users whose entry has status `s`. */
  function UsersWithStatus(users: map<string, OnlineUserInfo>, names: set<string>, s: string): (r: set<string>)
    ensures r <= names
    ensures forall k :: k in r <==> k in names && k in users && users[k].status == s
  {
    set k | k in names && k in users && users[k].status == s
  }

  lemma InitialCountsTotal()
    ensures Total(map["online" := 0, "away" := 0, "busy" := 0]) == 0
  {
    var m: map<string, nat> := map["online" := 0, "away" := 0, "busy" := 0];
    TotalRemove(m, "online");
    TotalRemove(m - {"online"}, "away");
    TotalRemove(m - {"online"} - {"away"}, "busy");
    assert m - {"online"} - {"away"} - {"busy"} == map[];
  }

  /** Counting one more user adds one to that user's status and nothing elsewhere. */
  lemma CountStep(users: map<string, OnlineUserInfo>, seen: set<string>, k: string)
    requires k in users && k !in seen
    ensures forall t :: |UsersWithStatus(users, seen + {k}, t)|
                        == |UsersWithStatus(users, seen, t)| + (if t == users[k].status then 1 else 0)
  {
    forall t ensures |UsersWithStatus(users, seen + {k}, t)|
                     == |UsersWithStatus(users, seen, t)| + (if t == users[k].status then 1 else 0)
    {
      if t == users[k].status {
        assert UsersWithStatus(users, seen + {k}, t) == UsersWithStatus(users, seen, t) + {k};
      } else {
        assert UsersWithStatus(users, seen + {k}, t) == UsersWithStatus(users, seen, t);
      }
    }
  }

  /** The statuses a count table holds after counting the users in `seen`: the three
      fixed ones and every status one of them has. */
  ghost function Statuses(users: map<string, OnlineUserInfo>, seen: set<string>): set<string> {
    {"online", "away", "busy"} + set k | k in seen && k in users :: users[k].status
  }

  /** The count table after counting the users in `seen`. */
  ghost function StatusCounts(users: map<string, OnlineUserInfo>, seen: set<string>): map<string, nat> {
    map s | s in Statuses(users, seen) :: |UsersWithStatus(users, seen, s)|
  }

  /** `counts` is the per-status count of the users in `seen`. */
  ghost predicate Tallied(users: map<string, OnlineUserInfo>, seen: set<string>, counts: map<string, nat>) {
    counts == StatusCounts(users, seen) && Total(counts) == |seen|
  }

  /** Before the counting loop: the three statuses at zero, nobody counted. */
  lemma NothingTallied(users: map<string, OnlineUserInfo>)
    ensures Tallied(users, {}, map["online" := 0, "away" := 0, "busy" := 0])
  {
    InitialCountsTotal();
    assert Statuses(users, {}) == {"online", "away", "busy"};
    forall s ensures |UsersWithStatus(users, {}, s)| == 0 {
      assert UsersWithStatus(users, {}, s) == {};
    }
  }

  /** What the count table says: the three fixed statuses, every counted user's status, and
      for each status the number of counted users that have it. */
  lemma StatusCountsMeaning(users: map<string, OnlineUserInfo>, seen: set<string>)
    ensures var counts := StatusCounts(users, seen);
            && "online" in counts && "away" in counts && "busy" in counts
            && (forall s :: s in counts ==> counts[s] == |UsersWithStatus(users, seen, s)|)
            && (forall k :: k in seen && k in users ==> users[k].status in counts)
  {
  }

  /** Moving one key from the keys still to count to the counted ones. */
  lemma MoveOne(rest: set<string>, seen: set<string>, all: set<string>, k: string)
    requires rest + seen == all && rest * seen == {} && k in rest
    ensures (rest - {k}) + (seen + {k}) == all && (rest - {k}) * (seen + {k}) == {}
    ensures k !in seen && |rest - {k}| < |rest|
  {
    assert k !in seen by {
      assert k in rest * seen <==> k in seen;
    }
    assert rest == (rest - {k}) + {k};
    forall x ensures x in (rest - {k}) + (seen + {k}) <==> x in all {
      assert x in all <==> x in rest || x in seen;
    }
  }

  /** One step of the counting loop. */
  function TallyOne(users: map<string, OnlineUserInfo>, seen: set<string>, counts: map<string, nat>, k: string)
    : (r: map<string, nat>)
    requires k in users && k !in seen && Tallied(users, seen, counts)
    ensures Tallied(users, seen + {k}, r)
  {
    TallyStep(users, seen, k);
    TotalIncrement(counts, users[k].status);
    Bumped(counts, users[k].status)
  }

  function Bumped(counts: map<string, nat>, s: string): map<string, nat> {
    counts[s := (if s in counts then counts[s] else 0) + 1]
  }

  /** Counting one more user adds one to that user's status, adding the status when it
      is new, and changes nothing else. */
  lemma TallyStep(users: map<string, OnlineUserInfo>, seen: set<string>, k: string)
    requires k in users && k !in seen
    ensures StatusCounts(users, seen + {k}) == Bumped(StatusCounts(users, seen), users[k].status)
  {
    var s := users[k].status;
    var before, after := StatusCounts(users, seen), StatusCounts(users, seen + {k});
    var bumped := Bumped(before, s);
    CountStep(users, seen, k);
    assert Statuses(users, seen + {k}) == Statuses(users, seen) + {s};
    assert after.Keys == bumped.Keys;
    forall t | t in after ensures after[t] == bumped[t] {
      if t == s && s !in before {
        CountedHaveStatus(users, seen, s);
      }
    }
  }

  /** A status some counted user has is among the statuses of the count table. */
  lemma CountedHaveStatus(users: map<string, OnlineUserInfo>, seen: set<string>, t: string)
    ensures UsersWithStatus(users, seen, t) != {} ==> t in Statuses(users, seen)
  {
    if UsersWithStatus(users, seen, t) != {} {
      var j :| j in UsersWithStatus(users, seen, t);
      assert users[j].status == t;
    }
  }

  /** The names of every online user shown as a friend, in the friend list's order. */
  function OnlineAmong(users: map<string, OnlineUserInfo>, names: seq<string>): (r: seq<OnlineUserInfo>)
    ensures |r| <= |names|
    ensures forall i :: i in r <==> exists n :: n in names && n in users && users[n] == i
  {
    if names == [] then []
    else
      assert forall n :: n in names <==> n == names[0] || n in names[1..];
      (if names[0] in users then [users[names[0]]] else []) + OnlineAmong(users, names[1..])
  }

  class OnlineUserService {
    var onlineUsers: map<string, OnlineUserInfo>

    ghost predicate Valid()
      reads this
    {
      forall k :: k in onlineUsers ==> onlineUsers[k].username == k
    }

    constructor ()
      ensures Valid() && onlineUsers == map[]
    {
      onlineUsers := map[];
    }

    /** `setUserOnline`: a known user's entry is stored, replacing any earlier one, as
        "online" at `now` with the given session; an unknown user changes nothing. */
    method SetUserOnline(username: string, sessionId: string, account: Option<Account>, now: Millis)
      requires Valid()
      modifies this
      ensures Valid()
      ensures account.None? ==> onlineUsers == old(onlineUsers)
      ensures account.Some? ==>
                onlineUsers == old(onlineUsers)[username := OnlineUserInfo(username, account.value.displayName,
                                                  account.value.id, "online", now, sessionId)]
    {
      if account.Some? {
        var info := OnlineUserInfo(username, account.value.displayName, account.value.id, "online", now, sessionId);
        onlineUsers := onlineUsers[username := info];
      }
    }

    /** `setUserOffline`: the entry is removed; reports whether there was one. */
    method SetUserOffline(username: string) returns (removed: bool)
      requires Valid()
      modifies this
      ensures Valid()
      ensures removed <==> username in old(onlineUsers)
      ensures onlineUsers == old(onlineUsers) - {username}
    {
      removed := username in onlineUsers;
      onlineUsers := onlineUsers - {username};
    }

    /** `updateUserStatus`: an existing entry takes the status and `now` as its activity
        time; an absent user is not added. */
    method UpdateUserStatus(username: string, status: string, now: Millis)
      requires Valid()
      modifies this
      ensures Valid()
      ensures onlineUsers.Keys == old(onlineUsers).Keys
      ensures username in old(onlineUsers) ==>
                onlineUsers == old(onlineUsers)[username := old(onlineUsers)[username].(status := status, lastActiveTime := now)]
      ensures username !in old(onlineUsers) ==> onlineUsers == old(onlineUsers)
    {
      if username in onlineUsers {
        onlineUsers := onlineUsers[username := onlineUsers[username].(status := status, lastActiveTime := now)];
      }
    }

    /** `updateUserActivity`: only the activity time of an existing entry changes. */
    method UpdateUserActivity(username: string, now: Millis)
      requires Valid()
      modifies this
      ensures Valid()
      ensures onlineUsers.Keys == old(onlineUsers).Keys
      ensures username in old(onlineUsers) ==>
                onlineUsers == old(onlineUsers)[username := old(onlineUsers)[username].(lastActiveTime := now)]
      ensures username !in old(onlineUsers) ==> onlineUsers == old(onlineUsers)
    {
      if username in onlineUsers {
        onlineUsers := onlineUsers[username := onlineUsers[username].(lastActiveTime := now)];
      }
    }

    function IsUserOnline(username: string): (r: bool)
      reads this
      ensures r <==> username in onlineUsers
    {
      username in onlineUsers
    }

    /** `getUserStatusById`, with the id already resolved to a username (`None` when the
        user does not exist): "offline" for an unknown or absent user, else the stored status. */
    function UserStatus(username: Option<string>): (r: string)
      reads this
      ensures username.None? || username.value !in onlineUsers ==> r == "offline"
      ensures username.Some? && username.value in onlineUsers ==> r == onlineUsers[username.value].status
    {
      if username.None? || username.value !in onlineUsers then "offline" else onlineUsers[username.value].status
    }

    /** `getOnlineFriends`, with the friends given by username. */
    function OnlineFriends(friendNames: seq<string>): (r: seq<OnlineUserInfo>)
      reads this
      ensures |r| <= |friendNames|
      ensures forall i :: i in r ==> i in onlineUsers.Values
      ensures forall n :: n in friendNames && n in onlineUsers ==> onlineUsers[n] in r
    {
      OnlineAmong(onlineUsers, friendNames)
    }

    /** `getOnlineUserCountByStatus`: "online", "away" and "busy" are always present, every
        key counts the users with that status, and the counts add up to the number of
        online users. */
    method CountByStatus() returns (counts: map<string, nat>)
      ensures counts == StatusCounts(onlineUsers, onlineUsers.Keys)
      ensures Total(counts) == |onlineUsers|
    {
      counts := map["online" := 0, "away" := 0, "busy" := 0];
      var users := onlineUsers;
      NothingTallied(users);
      var rest, seen := users.Keys, {};
      while rest != {}
        invariant rest + seen == users.Keys && rest * seen == {}
        invariant Tallied(users, seen, counts)
        decreases |rest|
      {
        var k :| k in rest;
        MoveOne(rest, seen, users.Keys, k);
        counts := TallyOne(users, seen, counts, k);
        rest, seen := rest - {k}, seen + {k};
      }
      assert seen == users.Keys;
    }

    /** `setUserOfflineBySessionId`: removes one user whose entry has that session id, if
        any, and names the user removed. */
    method SetUserOfflineBySessionId(sessionId: string) returns (removed: Option<string>)
      requires Valid()
      modifies this
      ensures Valid()
      ensures removed.None? <==> forall k :: k in old(onlineUsers) ==> old(onlineUsers)[k].sessionId != sessionId
      ensures removed.None? ==> onlineUsers == old(onlineUsers)
      ensures removed.Some? ==> removed.value in old(onlineUsers)
                                && old(onlineUsers)[removed.value].sessionId == sessionId
                                && onlineUsers == old(onlineUsers) - {removed.value}
    {
      if k :| k in onlineUsers && onlineUsers[k].sessionId == sessionId {
        var _ := SetUserOffline(k);
        removed := Some(k);
      } else {
        removed := None;
      }
    }

    /** `cleanupInactiveUsers`: every user last active more than 30 minutes before `now` is
        set offline; everyone else stays. */
    method CleanupInactiveUsers(now: Millis)
      requires Valid()
      modifies this
      ensures Valid()
      ensures var cutoff := now - InactiveMinutes * 60000;
              onlineUsers == map k | k in old(onlineUsers) && old(onlineUsers)[k].lastActiveTime >= cutoff :: old(onlineUsers)[k]
    {
      var cutoff := now - InactiveMinutes * 60000;
      var inactive := set k | k in onlineUsers && onlineUsers[k].lastActiveTime < cutoff;
      ghost var before := onlineUsers;
      ghost var done: set<string> := {};
      while inactive != {}
        invariant Valid()
        invariant forall k :: k in inactive || k in done <==> k in before && before[k].lastActiveTime < cutoff
        invariant inactive * done == {}
        invariant forall k :: k in onlineUsers <==> k in before && k !in done
        invariant forall k :: k in onlineUsers ==> onlineUsers[k] == before[k]
        decreases |inactive|
      {
        var u :| u in inactive;
        var _ := SetUserOffline(u);
        inactive, done := inactive - {u}, done + {u};
      }
      assert onlineUsers == map k | k in before && before[k].lastActiveTime >= cutoff :: before[k];
    }
  }
}

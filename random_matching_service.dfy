/** `RandomMatchingService`: tag similarity, age-group adjacency, the choice of a partner
    among the best-scored candidates, and the match lifecycle over the match table (end,
    leave, message counting, timeouts, grouped history). Room side effects go through
    `ChatRooms.ChatRoomService`. */
module RandomMatching {
  import opened Wrappers
  import opened Ids
  import opened Text
  import opened Collections
  import opened UserProfiles
  import opened RandomMatches
  import ChatRooms

  // ---- tag similarity ----

  /** The tag set of a comma-separated list: lower-cased, split on ',', each piece trimmed,
      empty pieces dropped. */
  function Tokens(text: string): (r: set<string>)
    ensures forall t :: t in r ==> t != []
    ensures forall p :: p in Split(ToLower(text), ',') && Trim(p) != [] ==> Trim(p) in r
  {
    set p | p in Split(ToLower(text), ',') && Trim(p) != [] :: Trim(p)
  }

  /** A non-negative fraction `num / den`. */
  datatype Ratio = Ratio(num: nat, den: nat)

  const Zero: Ratio := Ratio(0, 1)

  /** `calculateTextSimilarity`: 0 when either text is missing or blank or yields no tags;
      otherwise the Jaccard index |A ∩ B| / |A ∪ B| of the two tag sets. */
  function TextSimilarity(text1: Option<string>, text2: Option<string>): (r: Ratio)
    ensures 0 < r.den && r.num <= r.den
    ensures text1.None? || text2.None? || IsBlank(text1.value) || IsBlank(text2.value) ==> r == Zero
    ensures text1.Some? && text2.Some? && (Tokens(text1.value) == {} || Tokens(text2.value) == {}) ==> r == Zero
    ensures text1.Some? && text2.Some? && !IsBlank(text1.value) && !IsBlank(text2.value) ==>
              r.num == |Tokens(text1.value) * Tokens(text2.value)|
    ensures text1.Some? && text2.Some? && !IsBlank(text1.value) && !IsBlank(text2.value)
            && Tokens(text1.value) != {} && Tokens(text2.value) != {} ==>
              r.den == |Tokens(text1.value) + Tokens(text2.value)|
  {
    if text1.None? || text2.None? || IsBlank(text1.value) || IsBlank(text2.value) then Zero
    else
      var a, b := Tokens(text1.value), Tokens(text2.value);
      if a == {} || b == {} then Zero
      else
        SubsetCard(a * b, a + b);
        SubsetCard(a, a + b);
        Ratio(|a * b|, |a + b|)
  }

  /** The similarity does not depend on the order of its arguments. */
  lemma TextSimilaritySymmetric(text1: Option<string>, text2: Option<string>)
    ensures TextSimilarity(text1, text2) == TextSimilarity(text2, text1)
  {
    if text1.Some? && text2.Some? && !IsBlank(text1.value) && !IsBlank(text2.value) {
      var a, b := Tokens(text1.value), Tokens(text2.value);
      assert a * b == b * a && a + b == b + a;
    }
  }

  /** The Jaccard index of two sets is 1 exactly when the sets are equal. */
  lemma JaccardFull<T>(a: set<T>, b: set<T>)
    ensures |a * b| == |a + b| <==> a == b
  {
    SubsetCard(a * b, a + b);
    if |a * b| == |a + b| {
      assert a * b == a + b;
      assert a == b by {
        forall x | x in a ensures x in b { assert x in a + b; }
        forall x | x in b ensures x in a { assert x in a + b; }
      }
    }
    if a == b {
      assert a * b == a + b;
    }
  }

  /** The similarity is 1 exactly when both texts have the same non-empty tag set. */
  lemma TextSimilarityFull(text1: string, text2: string)
    requires !IsBlank(text1) && !IsBlank(text2)
    ensures var r := TextSimilarity(Some(text1), Some(text2));
            (r.num == r.den) <==> (Tokens(text1) == Tokens(text2) && Tokens(text1) != {})
  {
    JaccardFull(Tokens(text1), Tokens(text2));
  }

  /** Tag sets with nothing in common score 0. */
  lemma TextSimilarityDisjoint(text1: string, text2: string)
    requires Tokens(text1) * Tokens(text2) == {}
    ensures TextSimilarity(Some(text1), Some(text2)).num == 0
  {
  }

  // ---- age groups ----

  /** `ageOrder.indexOf(g)` over TEENS, TWENTIES, THIRTIES, FORTIES, FIFTIES_PLUS: -1 for
      NOT_SPECIFIED, which is not in the list. */
  function AgeOrderIndex(g: AgeGroup): (i: int)
    ensures -1 <= i <= 4
    ensures i == -1 <==> g == AgeNotSpecified
    ensures g != AgeNotSpecified ==> i == AgeOrdinal(g)
  {
    if g == AgeNotSpecified then -1 else AgeOrdinal(g)
  }

  function Abs(x: int): nat {
    if x < 0 then -x else x
  }

  /** `areAdjacentAgeGroups` as written: the indices differ by exactly one. */
  predicate AreAdjacentAgeGroupsAsWritten(a: AgeGroup, b: AgeGroup) {
    Abs(AgeOrderIndex(a) - AgeOrderIndex(b)) == 1
  }

  /** The missing entry's index -1 sits next to TEENS' index 0, so an unspecified age group
      is treated as adjacent to the teens. */
  lemma UnspecifiedAdjacentToTeensAsWritten()
    ensures AreAdjacentAgeGroupsAsWritten(AgeNotSpecified, Teens)
    ensures AreAdjacentAgeGroupsAsWritten(Teens, AgeNotSpecified)
  {
  }

  /** Adjacency restricted to the five listed groups, as the age order intends. */
  predicate AreAdjacentAgeGroups(a: AgeGroup, b: AgeGroup) {
    a != AgeNotSpecified && b != AgeNotSpecified && Abs(AgeOrderIndex(a) - AgeOrderIndex(b)) == 1
  }

  /** The corrected relation is symmetric and irreflexive, an unspecified group has no
      neighbours, and it agrees with the code whenever both groups are specified. */
  lemma AdjacencyProperties(a: AgeGroup, b: AgeGroup)
    ensures AreAdjacentAgeGroups(a, b) == AreAdjacentAgeGroups(b, a)
    ensures !AreAdjacentAgeGroups(a, a)
    ensures a == AgeNotSpecified ==> !AreAdjacentAgeGroups(a, b)
    ensures a != AgeNotSpecified && b != AgeNotSpecified ==>
              AreAdjacentAgeGroups(a, b) == AreAdjacentAgeGroupsAsWritten(a, b)
    ensures AreAdjacentAgeGroupsAsWritten(a, b) && !AreAdjacentAgeGroups(a, b) ==>
              {a, b} == {AgeNotSpecified, Teens}
  {
  }

  /** The age term of the compatibility score: when both groups are set, 20 points for the
      same group, 10 for groups the code's adjacency test accepts, else 0; `None` when the
      term is not counted. Adjacency is taken as written, so an unspecified group scores
      10 against the teens. */
  function AgePoints(a: Option<AgeGroup>, b: Option<AgeGroup>): (r: Option<nat>)
    ensures r.Some? <==> a.Some? && b.Some?
    ensures r.Some? ==> r.value in {0, 10, 20}
    ensures r == Some(20) <==> a.Some? && a == b
    ensures r == Some(10) <==> a.Some? && b.Some? && AreAdjacentAgeGroupsAsWritten(a.value, b.value)
    ensures a == Some(AgeNotSpecified) && b == Some(Teens) ==> r == Some(10)
  {
    if a.None? || b.None? then None
    else if a.value == b.value then Some(20)
    else if AreAdjacentAgeGroupsAsWritten(a.value, b.value) then Some(10)
    else Some(0)
  }

  // ---- choosing a partner ----

  /** Two users have been matched before: the pair, in either order. */
  predicate IsPair(m: Match, u1: UserId, u2: UserId) {
    (m.user1 == u1 && m.user2 == u2) || (m.user1 == u2 && m.user2 == u1)
  }

  /** `findByUser1AndUser2OrUser2AndUser1`. */
  function MatchesBetween(matches: seq<Match>, u1: UserId, u2: UserId): (r: seq<Match>)
    ensures forall m :: m in r <==> m in matches && IsPair(m, u1, u2)
  {
    Filter(matches, (m: Match) => IsPair(m, u1, u2))
  }

  /** Some earlier match of the pair already has a chat room. */
  predicate HasRoomWith(matches: seq<Match>, u1: UserId, u2: UserId) {
    exists m :: m in matches && IsPair(m, u1, u2) && m.chatRoom.Some?
  }

  /** `hasExistingMatch`: scans the pair's matches and stops at the first one with a room. */
  method HasExistingMatch(matches: seq<Match>, u1: UserId, u2: UserId) returns (found: bool)
    ensures found <==> HasRoomWith(matches, u1, u2)
  {
    var existing := MatchesBetween(matches, u1, u2);
    var i := 0;
    while i < |existing|
      invariant 0 <= i <= |existing|
      invariant forall k :: 0 <= k < i ==> existing[k].chatRoom.None?
    {
      if existing[i].chatRoom.Some? {
        assert existing[i] in existing;
        return true;
      }
      i := i + 1;
    }
    assert forall m :: m in existing ==> m.chatRoom.None?;
    found := false;
  }

  /** How many of the top-scored candidates the draw is taken from: a third, at least one. */
  function TopCount(n: nat): (k: nat)
    requires n > 0
    ensures 1 <= k <= n
  {
    if n / 3 > 1 then n / 3 else 1
  }

  /** `findBestMatch`: the candidates without an earlier matched room, sorted by descending
      score, and the `draw`-th of the first `TopCount` of them (`draw` stands for
      `random.nextInt`, reduced to the range). */
  function FindBestMatch(user: UserId, candidates: seq<UserId>, matches: seq<Match>,
                         score: UserId -> int, draw: nat): (r: Option<UserId>)
    ensures r.None? <==> forall c :: c in candidates ==> HasRoomWith(matches, user, c)
    ensures r.Some? ==> r.value in candidates && !HasRoomWith(matches, user, r.value)
    ensures r.Some? ==>
              var eligible := Filter(candidates, (c: UserId) => !HasRoomWith(matches, user, c));
              Count(eligible, (c: UserId) => score(c) > score(r.value)) < TopCount(|eligible|)
  {
    var eligible := Filter(candidates, (c: UserId) => !HasRoomWith(matches, user, c));
    if eligible == [] then None
    else
      assert eligible[0] in eligible;
      var sorted := SortDesc(eligible, score);
      var k := draw % TopCount(|sorted|);
      assert sorted[k] in multiset(eligible);
      HigherScoredBefore(sorted, score, k);
      CountPermutation(sorted, eligible, (c: UserId) => score(c) > score(sorted[k]));
      Some(sorted[k])
  }

  /** In a descending order, only the elements before position `k` can score higher than
      the one at `k`. */
  lemma HigherScoredBefore(sorted: seq<UserId>, score: UserId -> int, k: nat)
    requires SortedDesc(sorted, score) && k < |sorted|
    ensures Count(sorted, (c: UserId) => score(c) > score(sorted[k])) <= k
  {
    var higher := (c: UserId) => score(c) > score(sorted[k]);
    assert sorted == sorted[..k] + sorted[k..];
    CountConcat(sorted[..k], sorted[k..], higher);
    assert forall i :: 0 <= i < |sorted[k..]| ==> !higher(sorted[k..][i]);
  }

  // ---- grouped history ----

  /** `findAllMatchesForUser`. */
  function MatchesForUser(matches: seq<Match>, user: UserId): (r: seq<Match>)
    ensures forall m :: m in r <==> m in matches && Involves(m, user)
  {
    Filter(matches, (m: Match) => Involves(m, user))
  }

  /** The distinct partners of `user` in `ms`, in order of first appearance. */
  function Partners(ms: seq<Match>, user: UserId): (r: seq<UserId>)
    ensures forall x :: x in r <==> exists m :: m in ms && OtherUser(m, user) == Some(x)
    ensures forall i, j :: 0 <= i < j < |r| ==> r[i] != r[j]
  {
    if ms == [] then []
    else
      var front := ms[..|ms| - 1];
      var last := ms[|ms| - 1];
      var pre := Partners(front, user);
      assert ms == front + [last];
      assert forall m :: m in ms <==> m in front || m == last;
      var o := OtherUser(last, user);
      if o.Some? && o.value !in pre then pre + [o.value] else pre
  }

  function GroupOf(ms: seq<Match>, user: UserId, other: UserId): (r: seq<Match>)
    ensures forall m :: m in r <==> m in ms && OtherUser(m, user) == Some(other)
  {
    Filter(ms, (m: Match) => OtherUser(m, user) == Some(other))
  }

  /** The match with the latest `createdAt`, the first one among equals. */
  function Latest(ms: seq<Match>): (r: Match)
    requires ms != []
    ensures r in ms
    ensures forall m :: m in ms ==> m.createdAt <= r.createdAt
  {
    if |ms| == 1 then ms[0]
    else
      var rest := Latest(ms[1..]);
      assert forall m :: m in ms ==> m == ms[0] || m in ms[1..];
      if ms[0].createdAt >= rest.createdAt then ms[0] else rest
  }

  /** The message total, a missing count read as 0 in the source; counts are never missing here. */
  function SumMessages(ms: seq<Match>): int {
    if ms == [] then 0 else ms[0].messageCount + SumMessages(ms[1..])
  }

  datatype GroupedHistory = GroupedHistory(otherUser: UserId, totalMatches: nat, latestMatch: Match,
                                           totalMessages: int, activeMatches: nat)

  /** The entry of one partner's group. */
  function GroupSummary(mine: seq<Match>, user: UserId, x: UserId): GroupedHistory
    requires GroupOf(mine, user, x) != []
  {
    var group := GroupOf(mine, user, x);
    GroupedHistory(x, |group|, Latest(group), SumMessages(group), Count(group, IsActive))
  }

  /** One group per partner, in partner order. */
  function Summaries(mine: seq<Match>, user: UserId, partners: seq<UserId>): (r: seq<GroupedHistory>)
    requires forall x :: x in partners ==> GroupOf(mine, user, x) != []
    ensures |r| == |partners|
    ensures forall i :: 0 <= i < |r| ==> r[i].otherUser == partners[i]
  {
    seq(|partners|, i requires 0 <= i < |partners| => GroupSummary(mine, user, partners[i]))
  }

  /** Each entry counts its partner's group: its size, latest match, message total and
      active matches. */
  lemma SummariesDescribeGroups(mine: seq<Match>, user: UserId, partners: seq<UserId>)
    requires forall x :: x in partners ==> GroupOf(mine, user, x) != []
    ensures forall g :: g in Summaries(mine, user, partners) ==>
              var group := GroupOf(mine, user, g.otherUser);
              group != [] && g.totalMatches == |group| && g.latestMatch == Latest(group)
              && g.totalMessages == SumMessages(group) && g.activeMatches == Count(group, IsActive)
  {
    var r := Summaries(mine, user, partners);
    forall g | g in r
      ensures var group := GroupOf(mine, user, g.otherUser);
              group != [] && g.totalMatches == |group| && g.latestMatch == Latest(group)
              && g.totalMessages == SumMessages(group) && g.activeMatches == Count(group, IsActive)
    {
      var i :| 0 <= i < |r| && r[i] == g;
      assert partners[i] in partners;
      assert g == GroupSummary(mine, user, partners[i]);
    }
  }

  /** `getGroupedMatchHistory`: the user's matches grouped by partner, one entry per partner
      with its match count, latest match, message total and active count, newest group first. */
  function GroupedMatchHistory(matches: seq<Match>, user: UserId): (r: seq<GroupedHistory>)
    ensures SortedDesc(r, (g: GroupedHistory) => g.latestMatch.createdAt)
    ensures forall m :: m in matches && Involves(m, user) ==>
              exists g :: g in r && Some(g.otherUser) == OtherUser(m, user)
    ensures forall i, j :: 0 <= i < j < |r| ==> r[i].otherUser != r[j].otherUser
    ensures forall g :: g in r ==>
              var group := GroupOf(MatchesForUser(matches, user), user, g.otherUser);
              group != [] && g.totalMatches == |group| && g.latestMatch in group
              && (forall m :: m in group ==> m.createdAt <= g.latestMatch.createdAt)
              && g.totalMessages == SumMessages(group) && g.activeMatches == Count(group, IsActive)
  {
    var mine := MatchesForUser(matches, user);
    var partners := Partners(mine, user);
    PartnersHaveGroups(mine, user, partners);
    var groups := Summaries(mine, user, partners);
    SummariesDescribeGroups(mine, user, partners);
    var r := SortDesc(groups, (g: GroupedHistory) => g.latestMatch.createdAt);
    SameElements(groups, r);
    DistinctPartnersAfterSort(groups, r);
    EveryPartnerGrouped(matches, user, partners, groups);
    r
  }

  lemma PartnersHaveGroups(mine: seq<Match>, user: UserId, partners: seq<UserId>)
    requires partners == Partners(mine, user)
    ensures forall x :: x in partners ==> GroupOf(mine, user, x) != []
  {
    forall x | x in partners ensures GroupOf(mine, user, x) != [] {
      var m :| m in mine && OtherUser(m, user) == Some(x);
      assert m in GroupOf(mine, user, x);
    }
  }

  lemma SameElements<T>(s: seq<T>, t: seq<T>)
    requires multiset(s) == multiset(t)
    ensures forall x :: x in s <==> x in t
  {
    forall x ensures x in s <==> x in t {
      assert x in s <==> x in multiset(s);
      assert x in t <==> x in multiset(t);
    }
  }

  lemma EveryPartnerGrouped(matches: seq<Match>, user: UserId, partners: seq<UserId>, groups: seq<GroupedHistory>)
    requires partners == Partners(MatchesForUser(matches, user), user)
    requires |groups| == |partners| && forall i :: 0 <= i < |groups| ==> groups[i].otherUser == partners[i]
    ensures forall m :: m in matches && Involves(m, user) ==>
              exists g :: g in groups && Some(g.otherUser) == OtherUser(m, user)
  {
    forall m | m in matches && Involves(m, user)
      ensures exists g :: g in groups && Some(g.otherUser) == OtherUser(m, user)
    {
      assert m in MatchesForUser(matches, user);
      var x := OtherUser(m, user).value;
      assert x in partners;
      var i :| 0 <= i < |partners| && partners[i] == x;
      assert groups[i] in groups;
    }
  }

  lemma DistinctPartnersAfterSort(groups: seq<GroupedHistory>, r: seq<GroupedHistory>)
    requires multiset(groups) == multiset(r)
    requires forall i, j :: 0 <= i < j < |groups| ==> groups[i].otherUser != groups[j].otherUser
    ensures forall i, j :: 0 <= i < j < |r| ==> r[i].otherUser != r[j].otherUser
  {
    forall i, j | 0 <= i < j < |r| ensures r[i].otherUser != r[j].otherUser {
      GroupCountAtMostOne(groups, r[i]);
      DistinctWhenCountOne(r, i, j);
      assert r[i] in multiset(groups) && r[j] in multiset(groups);
      var a :| 0 <= a < |groups| && groups[a] == r[i];
      var b :| 0 <= b < |groups| && groups[b] == r[j];
      assert a != b;
    }
  }

  lemma DistinctWhenCountOne<T>(r: seq<T>, i: nat, j: nat)
    requires i < j < |r| && multiset(r)[r[i]] <= 1
    ensures r[i] != r[j]
  {
    assert r == r[..j] + r[j..];
    assert r[i] == r[..j][i];
    assert r[j] == r[j..][0];
  }

  lemma {:induction false} GroupCountAtMostOne(groups: seq<GroupedHistory>, g: GroupedHistory)
    requires forall i, j :: 0 <= i < j < |groups| ==> groups[i].otherUser != groups[j].otherUser
    ensures multiset(groups)[g] <= 1
  {
    if groups != [] {
      assert groups == [groups[0]] + groups[1..];
      GroupCountAtMostOne(groups[1..], g);
      if groups[0] == g {
        assert g !in groups[1..];
      }
    }
  }

  // ---- the match table ----

  const MatchTimeoutMinutes: int := 30

  datatype MatchError = MatchNotFound | NotParticipant | NonUniqueResult

  /** Position of the match with this id. */
  function FindMatch(matches: seq<Match>, id: MatchId): (r: Option<nat>)
    ensures r.Some? ==> r.value < |matches| && matches[r.value].id == id
    ensures r.None? <==> forall k :: 0 <= k < |matches| ==> matches[k].id != id
  {
    if matches == [] then None
    else if matches[0].id == id then Some(0)
    else
      match FindMatch(matches[1..], id)
      case None => None
      case Some(k) => Some(k + 1)
  }

  /** What `findTimedOutMatches` selects: ACTIVE, without messages, matched before the
      threshold. */
  predicate TimesOut(m: Match, threshold: Millis) {
    m.matchedAt < threshold && m.status == Active && m.messageCount == 0
  }

  /** `setStatus(TIMEOUT)` then `setEndedAt(now)`. */
  function TimedOutAt(m: Match, now: Millis): (r: Match)
    ensures r.status == TimedOut && r.endedAt == Some(now) && r.updatedAt == now
    ensures r.durationMinutes == m.durationMinutes && r.messageCount == m.messageCount && r.chatRoom == m.chatRoom
    ensures r.id == m.id && r.user1 == m.user1 && r.user2 == m.user2 && r.matchedAt == m.matchedAt
  {
    WithStatus(m, TimedOut, now).(endedAt := Some(now))
  }

  /** The rooms the timeout pass deactivates, in table order. */
  function TimedOutRooms(ms: seq<Match>, threshold: Millis): seq<RoomId> {
    if ms == [] then []
    else
      var front := ms[..|ms| - 1];
      var last := ms[|ms| - 1];
      TimedOutRooms(front, threshold)
        + (if TimesOut(last, threshold) && last.chatRoom.Some? then [last.chatRoom.value] else [])
  }

  /** The room table after each listed room is deactivated in turn. */
  function DeactivateAll(rooms: seq<ChatRooms.Room>, ids: seq<RoomId>): (r: seq<ChatRooms.Room>)
    ensures |r| == |rooms|
  {
    if ids == [] then rooms
    else ChatRooms.Deactivated(DeactivateAll(rooms, ids[..|ids| - 1]), ids[|ids| - 1])
  }

  /** What the timeout pass does to one match. */
  function TimeoutStep(m: Match, threshold: Millis, now: Millis): (r: Match)
    ensures r.id == m.id
    ensures TimesOut(m, threshold) ==> r == TimedOutAt(m, now) && !IsActive(r)
    ensures !TimesOut(m, threshold) ==> r == m
  {
    if TimesOut(m, threshold) then TimedOutAt(m, now) else m
  }

  lemma TimedOutRoomsStep(ms: seq<Match>, k: nat, threshold: Millis)
    requires k < |ms|
    ensures TimedOutRooms(ms[..k + 1], threshold)
         == TimedOutRooms(ms[..k], threshold)
            + (if TimesOut(ms[k], threshold) && ms[k].chatRoom.Some? then [ms[k].chatRoom.value] else [])
  {
    assert ms[..k + 1][..k] == ms[..k];
  }

  lemma DeactivateAllStep(rooms: seq<ChatRooms.Room>, ids: seq<RoomId>, x: RoomId)
    ensures DeactivateAll(rooms, ids + [x]) == ChatRooms.Deactivated(DeactivateAll(rooms, ids), x)
  {
    assert (ids + [x])[..|ids|] == ids;
  }

  /** The rooms after one more match of the timeout pass. */
  lemma DeactivateStep(rooms: seq<ChatRooms.Room>, ms: seq<Match>, k: nat, threshold: Millis)
    requires k < |ms|
    ensures DeactivateAll(rooms, TimedOutRooms(ms[..k + 1], threshold))
         == if TimesOut(ms[k], threshold) && ms[k].chatRoom.Some?
            then ChatRooms.Deactivated(DeactivateAll(rooms, TimedOutRooms(ms[..k], threshold)), ms[k].chatRoom.value)
            else DeactivateAll(rooms, TimedOutRooms(ms[..k], threshold))
  {
    TimedOutRoomsStep(ms, k, threshold);
    var before := TimedOutRooms(ms[..k], threshold);
    if TimesOut(ms[k], threshold) && ms[k].chatRoom.Some? {
      DeactivateAllStep(rooms, before, ms[k].chatRoom.value);
    } else {
      assert before + [] == before;
    }
  }

  /** The abandon step of `leaveMatch`: ABANDONED (with its duration), ended by the user at `now`. */
  function AbandonedBy(m: Match, user: UserId, now: Millis): (r: Match)
    ensures r.status == Abandoned && r.endedBy == Some(user) && r.endedAt == Some(now)
    ensures r.durationMinutes == Some(MinutesBetween(m.matchedAt, now)) && r.chatRoom == m.chatRoom
  {
    WithStatus(m, Abandoned, now).(endedBy := Some(user), endedAt := Some(now))
  }

  class RandomMatchingService {
    var matches: seq<Match>
    var nextMatchId: MatchId
    const chatRooms: ChatRooms.ChatRoomService

    ghost predicate Valid()
      reads this, chatRooms
    {
      chatRooms.Valid()
      && (forall i, j :: 0 <= i < j < |matches| ==> matches[i].id != matches[j].id)
      && (forall i :: 0 <= i < |matches| ==> matches[i].id < nextMatchId)
    }

    constructor (chatRooms: ChatRooms.ChatRoomService)
      requires chatRooms.Valid()
      ensures Valid() && matches == [] && this.chatRooms == chatRooms
    {
      this.chatRooms := chatRooms;
      matches := [];
      nextMatchId := 1;
    }

    /** `createMatch`: a new ACTIVE match without a room. */
    method CreateMatch(user1: UserId, user2: UserId, now: Millis) returns (id: MatchId)
      requires Valid()
      modifies this
      ensures Valid()
      ensures id == old(nextMatchId) && matches == old(matches) + [NewMatch(id, user1, user2, None, now)]
    {
      id := nextMatchId;
      matches := matches + [NewMatch(id, user1, user2, None, now)];
      nextMatchId := nextMatchId + 1;
    }

    /** `findRandomMatch`: nothing when no one is available; otherwise a new match with the
        drawn candidate. */
    method FindRandomMatch(user: UserId, available: seq<UserId>, draw: nat, now: Millis) returns (r: Option<MatchId>)
      requires Valid()
      modifies this
      ensures Valid()
      ensures available == [] ==> r.None? && matches == old(matches)
      ensures available != [] ==>
                r == Some(old(nextMatchId))
                && matches == old(matches) + [NewMatch(r.value, user, available[draw % |available|], None, now)]
    {
      if available == [] {
        return None;
      }
      var id := CreateMatch(user, available[draw % |available|], now);
      r := Some(id);
    }

    /** `endMatch`: the match must exist and involve the caller; it is ended and its room,
        if any, is deactivated. */
    method EndMatch(matchId: MatchId, ender: UserId, now: Millis) returns (r: Result<(), MatchError>)
      requires Valid()
      modifies this, chatRooms
      ensures Valid()
      ensures nextMatchId == old(nextMatchId)
      ensures chatRooms.users == old(chatRooms.users) && chatRooms.requests == old(chatRooms.requests)
              && chatRooms.invitations == old(chatRooms.invitations)
      ensures chatRooms.nextRoomId == old(chatRooms.nextRoomId) && chatRooms.nextInvitationId == old(chatRooms.nextInvitationId)
      ensures var idx := FindMatch(old(matches), matchId);
              if idx.None? then r == Err(MatchNotFound)
              else if !Involves(old(matches)[idx.value], ender) then r == Err(NotParticipant)
              else r == Ok(())
      ensures r.Err? ==> matches == old(matches) && chatRooms.rooms == old(chatRooms.rooms)
      ensures r.Ok? ==> var i := FindMatch(old(matches), matchId).value;
                        var m := old(matches)[i];
                        matches == old(matches)[i := EndedBy(m, ender, now).(updatedAt := now)]
                        && chatRooms.rooms == (if m.chatRoom.Some? then ChatRooms.Deactivated(old(chatRooms.rooms), m.chatRoom.value)
                                               else old(chatRooms.rooms))
    {
      var idx := FindMatch(matches, matchId);
      if idx.None? {
        return Err(MatchNotFound);
      }
      var i := idx.value;
      var m := matches[i];
      if !Involves(m, ender) {
        return Err(NotParticipant);
      }
      matches := matches[i := EndedBy(m, ender, now).(updatedAt := now)];
      if m.chatRoom.Some? {
        chatRooms.DeactivateRoom(m.chatRoom.value);
      }
      r := Ok(());
    }

    /** `leaveMatch`: the user's single ACTIVE match (`findActiveMatchForUser`) is abandoned
        and the user leaves its room; no active match changes nothing, and more than one is
        the query's non-unique-result error. */
    method LeaveMatch(user: UserId, now: Millis) returns (r: Result<(), MatchError>)
      requires Valid()
      modifies this, chatRooms
      ensures Valid()
      ensures nextMatchId == old(nextMatchId)
      ensures chatRooms.users == old(chatRooms.users) && chatRooms.requests == old(chatRooms.requests)
              && chatRooms.invitations == old(chatRooms.invitations)
      ensures chatRooms.nextRoomId == old(chatRooms.nextRoomId) && chatRooms.nextInvitationId == old(chatRooms.nextInvitationId)
      ensures var active := Filter(old(matches), (m: Match) => Involves(m, user) && IsActive(m));
              (|active| > 1 <==> r == Err(NonUniqueResult))
              && (|active| != 1 ==> matches == old(matches) && chatRooms.rooms == old(chatRooms.rooms))
              && (|active| == 1 ==>
                    FindMatch(old(matches), active[0].id).Some? &&
                    var i := FindMatch(old(matches), active[0].id).value;
                    matches == old(matches)[i := AbandonedBy(active[0], user, now)]
                    && chatRooms.rooms == (if active[0].chatRoom.Some?
                                           then ChatRooms.Left(old(chatRooms.rooms), active[0].chatRoom.value, user)
                                           else old(chatRooms.rooms)))
    {
      var active := Filter(matches, (m: Match) => Involves(m, user) && IsActive(m));
      match UniqueRow(active)
      case NoRow =>
        r := Ok(());
      case ManyRows =>
        r := Err(NonUniqueResult);
      case OneRow(m) =>
        assert m in matches;
        var i := FindMatch(matches, m.id).value;
        matches := matches[i := AbandonedBy(m, user, now)];
        if m.chatRoom.Some? {
          var _ := chatRooms.RemoveUserFromRoom(m.chatRoom.value, user);
        }
        r := Ok(());
    }

    /** `incrementMessageCount(chatRoomId)`: the room's match (`findByChatRoomId`) gains one
        message when it is ACTIVE; otherwise nothing changes. */
    method IncrementMessageCount(roomId: RoomId, now: Millis) returns (r: Result<(), MatchError>)
      requires Valid()
      modifies this
      ensures Valid()
      ensures var found := Filter(old(matches), (m: Match) => m.chatRoom == Some(roomId));
              (|found| > 1 <==> r == Err(NonUniqueResult))
              && (|found| == 1 && IsActive(found[0]) ==>
                    FindMatch(old(matches), found[0].id).Some? &&
                    var i := FindMatch(old(matches), found[0].id).value;
                    matches == old(matches)[i := WithMessage(found[0], now)])
              && (!(|found| == 1 && IsActive(found[0])) ==> matches == old(matches))
    {
      var found := Filter(matches, (m: Match) => m.chatRoom == Some(roomId));
      match UniqueRow(found)
      case NoRow =>
        r := Ok(());
      case ManyRows =>
        r := Err(NonUniqueResult);
      case OneRow(m) =>
        if IsActive(m) {
          assert m in matches;
          var i := FindMatch(matches, m.id).value;
          matches := matches[i := WithMessage(m, now)];
        }
        r := Ok(());
    }

    /** `processTimedOutMatches`: every ACTIVE match without messages that was made more
        than 30 minutes before `now` becomes TIMEOUT, ended at `now`, and its room is
        deactivated; every other match is left as it was. */
    method ProcessTimedOutMatches(now: Millis)
      requires Valid()
      modifies this, chatRooms
      ensures Valid()
      ensures nextMatchId == old(nextMatchId)
      ensures chatRooms.users == old(chatRooms.users) && chatRooms.requests == old(chatRooms.requests)
              && chatRooms.invitations == old(chatRooms.invitations)
      ensures chatRooms.nextRoomId == old(chatRooms.nextRoomId) && chatRooms.nextInvitationId == old(chatRooms.nextInvitationId)
      ensures var threshold := now - MatchTimeoutMinutes * 60000;
              |matches| == |old(matches)|
              && (forall k :: 0 <= k < |matches| ==> matches[k] == TimeoutStep(old(matches)[k], threshold, now))
              && chatRooms.rooms == DeactivateAll(old(chatRooms.rooms), TimedOutRooms(old(matches), threshold))
    {
      var threshold := now - MatchTimeoutMinutes * 60000;
      ghost var ms0, rooms0 := matches, chatRooms.rooms;
      var k := 0;
      while k < |matches|
        invariant 0 <= k <= |matches| == |ms0|
        invariant Valid()
        invariant forall j :: 0 <= j < |ms0| ==> matches[j] == if j < k then TimeoutStep(ms0[j], threshold, now) else ms0[j]
        invariant chatRooms.rooms == DeactivateAll(rooms0, TimedOutRooms(ms0[..k], threshold))
        invariant nextMatchId == old(nextMatchId)
        invariant chatRooms.users == old(chatRooms.users) && chatRooms.requests == old(chatRooms.requests)
                  && chatRooms.invitations == old(chatRooms.invitations)
        invariant chatRooms.nextRoomId == old(chatRooms.nextRoomId) && chatRooms.nextInvitationId == old(chatRooms.nextInvitationId)
      {
        assert matches[k] == ms0[k];
        DeactivateStep(rooms0, ms0, k, threshold);
        TimeoutOne(k, threshold, now);
        k := k + 1;
      }
      assert ms0[..k] == ms0;
    }

    /** One match of the timeout pass: when it times out, its room is deactivated and it
        becomes TIMEOUT, ended at `now`. */
    method TimeoutOne(k: nat, threshold: Millis, now: Millis)
      requires Valid() && k < |matches|
      modifies this, chatRooms
      ensures Valid()
      ensures nextMatchId == old(nextMatchId)
      ensures chatRooms.users == old(chatRooms.users) && chatRooms.requests == old(chatRooms.requests)
              && chatRooms.invitations == old(chatRooms.invitations)
      ensures chatRooms.nextRoomId == old(chatRooms.nextRoomId) && chatRooms.nextInvitationId == old(chatRooms.nextInvitationId)
      ensures matches == old(matches)[k := TimeoutStep(old(matches)[k], threshold, now)]
      ensures var m := old(matches)[k];
              chatRooms.rooms == if TimesOut(m, threshold) && m.chatRoom.Some?
                                 then ChatRooms.Deactivated(old(chatRooms.rooms), m.chatRoom.value)
                                 else old(chatRooms.rooms)
    {
      var m := matches[k];
      if TimesOut(m, threshold) && m.chatRoom.Some? {
        chatRooms.DeactivateRoom(m.chatRoom.value);
      }
      matches := matches[k := TimeoutStep(m, threshold, now)];
      assert forall j :: 0 <= j < |matches| ==> matches[j].id == old(matches)[j].id;
    }
  }
}

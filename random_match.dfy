/** The `RandomMatch` entity: two users paired at random, an optional chat room, and a status
    that starts ACTIVE and ends ENDED, ABANDONED or TIMEOUT. The transitions are functions on
    the `Match` value; the class applies them to its fields in place. */
module RandomMatches {
  import opened Wrappers
  import opened Ids

  datatype MatchStatus = Active | Ended | Abandoned | TimedOut

  datatype Match = Match(
    id: MatchId,
    user1: UserId,
    user2: UserId,
    chatRoom: Option<RoomId>,
    status: MatchStatus,
    matchedAt: Millis,
    endedAt: Option<Millis>,
    endedBy: Option<UserId>,
    durationMinutes: Option<int>,
    messageCount: int,
    createdAt: Millis,
    updatedAt: Millis)

  /** `new RandomMatch(user1, user2[, chatRoom])` at time `now`: ACTIVE, no messages, not ended. */
  function NewMatch(id: MatchId, user1: UserId, user2: UserId, chatRoom: Option<RoomId>, now: Millis): (m: Match)
    ensures m.status == Active && m.messageCount == 0
    ensures m.user1 == user1 && m.user2 == user2 && m.chatRoom == chatRoom
    ensures m.matchedAt == now && m.createdAt == now && m.endedAt.None? && m.endedBy.None? && m.durationMinutes.None?
  {
    Match(id, user1, user2, chatRoom, Active, now, None, None, None, 0, now, now)
  }

  /** `getOtherUser`: the partner of either participant, and nothing for anyone else. */
  function OtherUser(m: Match, u: UserId): (r: Option<UserId>)
    ensures u == m.user1 ==> r == Some(m.user2)
    ensures u != m.user1 && u == m.user2 ==> r == Some(m.user1)
    ensures r.Some? <==> Involves(m, u)
  {
    if m.user1 == u then Some(m.user2)
    else if m.user2 == u then Some(m.user1)
    else None
  }

  /** `involvesUser`. */
  predicate Involves(m: Match, u: UserId) {
    m.user1 == u || m.user2 == u
  }

  /** The partner relation is symmetric: in a match of two distinct users, each is the
      other's other user. */
  lemma OtherUserSymmetric(m: Match, u: UserId)
    requires Involves(m, u) && m.user1 != m.user2
    ensures OtherUser(m, u).Some? && OtherUser(m, OtherUser(m, u).value) == Some(u)
    ensures OtherUser(m, u) != Some(u)
  {
  }

  predicate IsActive(m: Match) {
    m.status == Active
  }

  /** Java's `/` on `long`: the quotient truncated toward zero, so the remainder has the
      sign of the dividend and is smaller than the divisor. */
  function TruncDiv(a: int, b: int): (q: int)
    requires b > 0
    ensures a >= 0 ==> 0 <= q && q * b <= a < q * b + b
    ensures a < 0 ==> q <= 0 && q * b - b < a <= q * b
  {
    if a >= 0 then
      DivBounds(a, b);
      a / b
    else
      DivBounds(-a, b);
      NegatedProduct((-a) / b, b);
      -((-a) / b)
  }

  /** Floor division of a non-negative number leaves a remainder below the divisor. */
  lemma DivBounds(a: int, b: int)
    requires a >= 0 && b > 0
    ensures 0 <= a / b && (a / b) * b <= a < (a / b) * b + b
  {
    var p, r := a / b, a % b;
    assert a == p * b + r && 0 <= r < b;
    if p < 0 {
      assert p * b <= -b by { NegatedProduct(-p, b); }
    }
  }

  lemma NegatedProduct(p: int, b: int)
    requires p >= 0 && b > 0
    ensures (-p) * b == -(p * b)
    ensures p >= 1 ==> p * b >= b
  {
  }

  /** `Duration.between(from, to).toMinutes()`: the duration's seconds are rounded down and
      the minutes truncated toward zero. */
  function MinutesBetween(from: Millis, to: Millis): int {
    TruncDiv((to - from) / 1000, 60)
  }

  /** For a match that ends at or after it began, the duration is the number of whole
      minutes elapsed. */
  lemma MinutesBetweenWhole(from: Millis, to: Millis)
    requires from <= to
    ensures 0 <= MinutesBetween(from, to)
    ensures MinutesBetween(from, to) * 60000 <= to - from < (MinutesBetween(from, to) + 1) * 60000
  {
    var secs := (to - from) / 1000;
    var mins := secs / 60;
    assert secs * 1000 <= to - from < (secs + 1) * 1000;
    assert mins * 60 <= secs < (mins + 1) * 60;
    assert mins * 60000 == mins * 60 * 1000;
    assert mins * 60000 <= secs * 1000;
    assert (secs + 1) * 1000 <= (mins + 1) * 60 * 1000;
  }

  /** `calculateDuration` after `endedAt` was set: the stored duration is the number of
      whole minutes from the match to its end (never positive for an end before the start);
      without an end nothing changes. */
  function WithDuration(m: Match): (r: Match)
    ensures r == m.(durationMinutes := r.durationMinutes)
    ensures m.endedAt.None? ==> r == m
    ensures m.endedAt.Some? ==> r.durationMinutes.Some?
    ensures m.endedAt.Some? && m.matchedAt <= m.endedAt.value ==>
              var d := r.durationMinutes.value;
              0 <= d && d * 60000 <= m.endedAt.value - m.matchedAt < (d + 1) * 60000
    ensures m.endedAt.Some? && m.endedAt.value < m.matchedAt ==> r.durationMinutes.value <= 0
  {
    if m.endedAt.Some? then
      var d := MinutesBetween(m.matchedAt, m.endedAt.value);
      assert m.matchedAt <= m.endedAt.value ==> 0 <= d && d * 60000 <= m.endedAt.value - m.matchedAt < (d + 1) * 60000 by {
        if m.matchedAt <= m.endedAt.value {
          MinutesBetweenWhole(m.matchedAt, m.endedAt.value);
        }
      }
      m.(durationMinutes := Some(d))
    else m
  }

  /** `setStatus(s)` at `now`: ENDED and ABANDONED also stamp `endedAt` and the duration;
      ACTIVE and TIMEOUT change only the status. */
  function WithStatus(m: Match, s: MatchStatus, now: Millis): (r: Match)
    ensures r.status == s && r.updatedAt == now
    ensures s == Ended || s == Abandoned ==>
              r.endedAt == Some(now) && r.durationMinutes == Some(MinutesBetween(m.matchedAt, now))
    ensures s == Active || s == TimedOut ==> r == m.(status := s, updatedAt := now)
    ensures r.user1 == m.user1 && r.user2 == m.user2 && r.chatRoom == m.chatRoom
    ensures r.messageCount == m.messageCount && r.endedBy == m.endedBy && r.matchedAt == m.matchedAt
  {
    var m' := m.(status := s, updatedAt := now);
    if s == Ended || s == Abandoned then WithDuration(m'.(endedAt := Some(now))) else m'
  }

  /** `endMatch(ender)` at `now`: ENDED, ended by `ender` at `now`, with the elapsed minutes. */
  function EndedBy(m: Match, ender: UserId, now: Millis): (r: Match)
    ensures r.status == Ended && r.endedBy == Some(ender) && r.endedAt == Some(now)
    ensures r.durationMinutes == Some(MinutesBetween(m.matchedAt, now))
    ensures r.user1 == m.user1 && r.user2 == m.user2 && r.chatRoom == m.chatRoom
    ensures r.messageCount == m.messageCount && r.updatedAt == m.updatedAt
  {
    WithDuration(m.(status := Ended, endedBy := Some(ender), endedAt := Some(now)))
  }

  /** `incrementMessageCount` at `now`. */
  function WithMessage(m: Match, now: Millis): (r: Match)
    ensures r.messageCount == m.messageCount + 1 && r.updatedAt == now
    ensures r.status == m.status && r.endedAt == m.endedAt && r.chatRoom == m.chatRoom
    ensures r.id == m.id && r.user1 == m.user1 && r.user2 == m.user2 && r.endedBy == m.endedBy
    ensures r.durationMinutes == m.durationMinutes && r.matchedAt == m.matchedAt && r.createdAt == m.createdAt
  {
    m.(messageCount := m.messageCount + 1, updatedAt := now)
  }

  /** Once ended, a match stays ended with the same duration when `endMatch` runs again at
      the same moment: ending is idempotent. */
  lemma EndedByIdempotent(m: Match, ender: UserId, now: Millis)
    ensures EndedBy(EndedBy(m, ender, now), ender, now) == EndedBy(m, ender, now)
  {
  }

  /** Neither ending path can leave a match active. */
  lemma EndingLeavesInactive(m: Match, ender: UserId, now: Millis)
    ensures !IsActive(EndedBy(m, ender, now))
    ensures !IsActive(WithStatus(m, Abandoned, now)) && !IsActive(WithStatus(m, TimedOut, now))
  {
  }

  class RandomMatch {
    var id: MatchId
    var user1: UserId
    var user2: UserId
    var chatRoom: Option<RoomId>
    var status: MatchStatus
    var matchedAt: Millis
    var endedAt: Option<Millis>
    var endedBy: Option<UserId>
    var durationMinutes: Option<int>
    var messageCount: int
    var createdAt: Millis
    var updatedAt: Millis

    /** The entity's fields as one value. */
    function State(): Match
      reads this
    {
      Match(id, user1, user2, chatRoom, status, matchedAt, endedAt, endedBy, durationMinutes, messageCount,
            createdAt, updatedAt)
    }

    constructor (id: MatchId, user1: UserId, user2: UserId, chatRoom: Option<RoomId>, now: Millis)
      ensures State() == NewMatch(id, user1, user2, chatRoom, now)
    {
      this.id, this.user1, this.user2, this.chatRoom := id, user1, user2, chatRoom;
      status, matchedAt, endedAt, endedBy, durationMinutes := Active, now, None, None, None;
      messageCount, createdAt, updatedAt := 0, now, now;
    }

    function GetOtherUser(u: UserId): (r: Option<UserId>)
      reads this
      ensures r == OtherUser(State(), u)
    {
      if user1 == u then Some(user2) else if user2 == u then Some(user1) else None
    }

    function InvolvesUser(u: UserId): (r: bool)
      reads this
      ensures r <==> Involves(State(), u)
    {
      user1 == u || user2 == u
    }

    method SetStatus(s: MatchStatus, now: Millis)
      modifies this
      ensures State() == WithStatus(old(State()), s, now)
    {
      status := s;
      updatedAt := now;
      if s == Ended || s == Abandoned {
        endedAt := Some(now);
        CalculateDuration();
      }
    }

    method EndMatch(ender: UserId, now: Millis)
      modifies this
      ensures State() == EndedBy(old(State()), ender, now)
    {
      status := Ended;
      endedBy := Some(ender);
      endedAt := Some(now);
      CalculateDuration();
    }

    method IncrementMessageCount(now: Millis)
      modifies this
      ensures State() == WithMessage(old(State()), now)
    {
      messageCount := messageCount + 1;
      updatedAt := now;
    }

    method CalculateDuration()
      modifies this
      ensures State() == WithDuration(old(State()))
    {
      if endedAt.Some? {
        durationMinutes := Some(MinutesBetween(matchedAt, endedAt.value));
      }
    }
  }
}

/** The pure helpers of `RandomMatchingController`: tag parsing and counting, the age
    distance, the "destiny" score, the four candidate orders, the exclusion of known users
    from the swipe candidates, and the like table behind `sendLike`. */
module RandomMatchingView {
  import opened Wrappers
  import opened Ids
  import opened Text
  import opened Collections
  import opened UserProfiles
  import opened RandomMatches
  import RandomMatching

  // ---- tags ----

  /** `parseTags`: the trimmed, non-empty comma-separated pieces, case kept; nothing for a
      missing or empty text. */
  function TagSet(csv: Option<string>): (r: set<string>)
    ensures csv.None? || csv.value == [] ==> r == {}
    ensures csv.Some? && csv.value != [] ==>
              forall p :: p in Split(csv.value, ',') && Trim(p) != [] ==> Trim(p) in r
  {
    if csv.None? || csv.value == [] then {}
    else set p | p in Split(csv.value, ',') && Trim(p) != [] :: Trim(p)
  }

  /** Every tag is non-empty and already trimmed. */
  lemma TagsAreTrimmed(csv: Option<string>, t: string)
    requires t in TagSet(csv)
    ensures t != [] && Trim(t) == t
  {
    var p :| p in Split(csv.value, ',') && Trim(p) != [] && t == Trim(p);
    TrimIdempotent(p);
  }

  /** The similarity tokens of `RandomMatchingService` are the tags of the lower-cased text. */
  lemma TokensAreLowerCasedTags(s: string)
    requires s != []
    ensures RandomMatching.Tokens(s) == TagSet(Some(ToLower(s)))
  {
  }

  /** `parseTags` as its loop: one piece at a time, keeping the trimmed non-empty ones. */
  method ParseTags(csv: Option<string>) returns (tags: set<string>)
    ensures tags == TagSet(csv)
  {
    tags := {};
    if csv.None? || csv.value == [] {
      return;
    }
    var pieces := Split(csv.value, ',');
    for i := 0 to |pieces|
      invariant tags == set p | p in pieces[..i] && Trim(p) != [] :: Trim(p)
    {
      assert pieces[..i + 1] == pieces[..i] + [pieces[i]];
      var t := Trim(pieces[i]);
      if t != [] {
        tags := tags + {t};
      }
    }
    assert pieces[..|pieces|] == pieces;
  }

  /** `countCommonTags`: walks the other user's tags and counts those the caller also has. */
  method CountCommonTags(myTags: set<string>, otherTags: set<string>) returns (count: nat)
    ensures count == |myTags * otherTags|
    ensures count <= |otherTags| && count <= |myTags|
  {
    count := 0;
    var rest, seen := otherTags, {};
    while rest != {}
      invariant rest + seen == otherTags && rest * seen == {}
      invariant count == |myTags * seen|
      decreases |rest|
    {
      var t :| t in rest;
      CommonStep(myTags, seen, t);
      if t in myTags {
        count := count + 1;
      }
      assert (rest - {t}) + (seen + {t}) == rest + seen;
      rest, seen := rest - {t}, seen + {t};
    }
    assert seen == otherTags;
    SubsetCard(myTags * otherTags, otherTags);
    SubsetCard(myTags * otherTags, myTags);
  }

  /** One more tag walked adds one common tag exactly when the caller has it. */
  lemma CommonStep(myTags: set<string>, seen: set<string>, t: string)
    requires t !in seen
    ensures |myTags * (seen + {t})| == |myTags * seen| + (if t in myTags then 1 else 0)
  {
    if t in myTags {
      assert myTags * (seen + {t}) == myTags * seen + {t};
    } else {
      assert myTags * (seen + {t}) == myTags * seen;
    }
  }

  // ---- age distance ----

  const DayMillis: int := 86400000

  /** The age group's ordinal, 99 when the profile has none. */
  function AgeRank(p: Profile): (n: nat)
    ensures p.ageGroup.None? <==> n == 99
    ensures p.ageGroup.Some? ==> n <= 5
  {
    if p.ageGroup.Some? then AgeOrdinal(p.ageGroup.value) else 99
  }

  /** `ageDifference`: whole days between the two birth dates when both are known;
      otherwise 3650 days per step between the age groups' ordinals. */
  function AgeDifference(me: Profile, other: Profile): (r: nat)
    ensures me.birthDate.Some? && other.birthDate.Some? ==>
              r == RandomMatching.Abs(TruncDiv(other.birthDate.value - me.birthDate.value, DayMillis))
    ensures !(me.birthDate.Some? && other.birthDate.Some?) ==>
              r % 3650 == 0 && (r == 0 <==> me.ageGroup == other.ageGroup)
  {
    if me.birthDate.Some? && other.birthDate.Some? then
      RandomMatching.Abs(TruncDiv(other.birthDate.value - me.birthDate.value, DayMillis))
    else
      RandomMatching.Abs(AgeRank(me) - AgeRank(other)) * 3650
  }

  lemma AgeDifferenceSymmetric(me: Profile, other: Profile)
    ensures AgeDifference(me, other) == AgeDifference(other, me)
  {
  }

  /** With both birth dates, the difference is the number of whole days between them. */
  lemma AgeDifferenceWholeDays(me: Profile, other: Profile)
    requires me.birthDate.Some? && other.birthDate.Some?
    ensures var d := RandomMatching.Abs(other.birthDate.value - me.birthDate.value);
            AgeDifference(me, other) * DayMillis <= d < (AgeDifference(me, other) + 1) * DayMillis
  {
    var x := other.birthDate.value - me.birthDate.value;
    var d := RandomMatching.Abs(x);
    assert TruncDiv(x, DayMillis) == if x >= 0 then d / DayMillis else -(d / DayMillis);
    assert AgeDifference(me, other) == d / DayMillis;
  }

  /** Without birth dates, a candidate with an age group is always nearer than one without:
      the missing group's rank 99 is far from every real ordinal. */
  lemma MissingAgeGroupRanksLast(me: Profile, known: Profile, unknown: Profile)
    requires me.birthDate.None? && me.ageGroup.Some?
    requires known.ageGroup.Some? && unknown.ageGroup.None?
    ensures AgeDifference(me, known) < AgeDifference(me, unknown)
  {
  }

  // ---- destiny score ----

  /** The nearness term: 20 minus one point per 183 days, never below 0. */
  function NearnessPoints(days: nat): (p: nat)
    ensures p <= 20
    ensures p == 20 <==> days < 183
    ensures p == 0 <==> days >= 3660
  {
    if 20 - days / 183 > 0 then 20 - days / 183 else 0
  }

  predicate SameLocation(myLocation: Option<string>, other: Profile) {
    myLocation.Some? && other.location == myLocation
  }

  /** `destinyScore`: 30 for the same location, 15 per common tag, up to 20 for age
      nearness, 10 for the same age group and 10 for the same chat style. */
  function DestinyScore(me: Profile, other: Profile, myLocation: Option<string>, myTags: set<string>): (r: nat)
    ensures var common := |myTags * TagSet(other.favoriteThings)|;
            15 * common <= r <= 70 + 15 * common
    ensures SameLocation(myLocation, other) ==> r >= 30
  {
    (if SameLocation(myLocation, other) then 30 else 0)
    + |myTags * TagSet(other.favoriteThings)| * 15
    + NearnessPoints(AgeDifference(me, other))
    + (if me.ageGroup.Some? && me.ageGroup == other.ageGroup then 10 else 0)
    + (if me.chatStyle.Some? && me.chatStyle == other.chatStyle then 10 else 0)
  }

  /** Moving a candidate to the caller's location adds exactly the 30 location points. */
  lemma DestinyLocationBonus(me: Profile, other: Profile, loc: string, myTags: set<string>)
    requires other.location != Some(loc)
    ensures DestinyScore(me, other.(location := Some(loc)), Some(loc), myTags)
         == DestinyScore(me, other, Some(loc), myTags) + 30
  {
  }

  /** A candidate equal to the caller in everything the score looks at gets the highest
      score those common tags allow. */
  lemma DestinyScoreOfTwin(me: Profile, myTags: set<string>)
    requires me.location.Some? && me.ageGroup.Some? && me.chatStyle.Some?
    requires me.birthDate.None?
    ensures DestinyScore(me, me, me.location, myTags) == 70 + 15 * |myTags * TagSet(me.favoriteThings)|
  {
  }

  // ---- candidate orders ----

  function CommonTagCount(me: Profile, p: Profile): nat {
    |TagSet(me.favoriteThings) * TagSet(p.favoriteThings)|
  }

  /** The `type` switch of `getCandidates`: "nearby" puts same-location candidates first,
      "hobby" orders by common tags, most first, "age" by age difference, nearest first,
      and "destiny" by score, highest first; any other type keeps the list. How ties are
      ordered is not stated. */
  function SortCandidates(kind: string, me: Profile, candidates: seq<Profile>): (r: seq<Profile>)
    ensures multiset(r) == multiset(candidates)
    ensures kind == "nearby" ==>
              forall i, j :: 0 <= i < j < |r| && SameLocation(me.location, r[j]) ==> SameLocation(me.location, r[i])
    ensures kind == "hobby" ==>
              forall i, j :: 0 <= i < j < |r| ==> CommonTagCount(me, r[i]) >= CommonTagCount(me, r[j])
    ensures kind == "age" ==>
              forall i, j :: 0 <= i < j < |r| ==> AgeDifference(me, r[i]) <= AgeDifference(me, r[j])
    ensures kind == "destiny" ==>
              forall i, j :: 0 <= i < j < |r| ==>
                DestinyScore(me, r[i], me.location, TagSet(me.favoriteThings))
                  >= DestinyScore(me, r[j], me.location, TagSet(me.favoriteThings))
    ensures kind !in {"nearby", "hobby", "age", "destiny"} ==> r == candidates
  {
    if kind == "nearby" then
      SortDesc(candidates, (p: Profile) => if SameLocation(me.location, p) then 1 else 0)
    else if kind == "hobby" then
      SortDesc(candidates, (p: Profile) => CommonTagCount(me, p))
    else if kind == "age" then
      SortDesc(candidates, (p: Profile) => -(AgeDifference(me, p) as int))
    else if kind == "destiny" then
      SortDesc(candidates, (p: Profile) => DestinyScore(me, p, me.location, TagSet(me.favoriteThings)))
    else candidates
  }

  // ---- likes ----

  datatype Like = Like(liker: UserId, liked: UserId)

  /** `isMutualLike(a, b)`: each has liked the other. */
  predicate IsMutualLike(likes: seq<Like>, a: UserId, b: UserId) {
    Like(a, b) in likes && Like(b, a) in likes
  }

  /** `findMutualLikes(user)`, as the ids of the liked users. */
  function MutualLikes(likes: seq<Like>, user: UserId): (r: set<UserId>)
    ensures forall x :: x in r <==> IsMutualLike(likes, user, x)
  {
    set l | l in likes && l.liker == user && Like(l.liked, user) in likes :: l.liked
  }

  lemma MutualLikesSymmetric(likes: seq<Like>, a: UserId, b: UserId)
    ensures b in MutualLikes(likes, a) <==> a in MutualLikes(likes, b)
  {
  }

  /** The like table after `sendLike(a, b)`: the row is added only when it is missing. */
  function WithLike(likes: seq<Like>, a: UserId, b: UserId): (r: seq<Like>)
    ensures Like(a, b) in r
    ensures forall l :: l in r <==> l in likes || l == Like(a, b)
    ensures Like(a, b) in likes ==> r == likes
  {
    if Like(a, b) in likes then likes else likes + [Like(a, b)]
  }

  lemma WithLikeIdempotent(likes: seq<Like>, a: UserId, b: UserId)
    ensures WithLike(WithLike(likes, a, b), a, b) == WithLike(likes, a, b)
  {
  }

  predicate DistinctLikes(likes: seq<Like>) {
    forall i, j :: 0 <= i < j < |likes| ==> likes[i] != likes[j]
  }

  /** No like is ever stored twice. */
  lemma WithLikeKeepsDistinct(likes: seq<Like>, a: UserId, b: UserId)
    requires DistinctLikes(likes)
    ensures DistinctLikes(WithLike(likes, a, b))
  {
  }

  /** The `match_like` table. */
  class LikeTable {
    var likes: seq<Like>

    ghost predicate Valid()
      reads this
    {
      DistinctLikes(likes)
    }

    constructor ()
      ensures Valid() && likes == []
    {
      likes := [];
    }

    /** `sendLike`: records the like if it is new and reports whether it is now mutual, which
      is when the target had already liked the caller (or the caller liked themself). */
    method SendLike(me: UserId, target: UserId) returns (mutual: bool)
      requires Valid()
      modifies this
      ensures Valid()
      ensures likes == WithLike(old(likes), me, target)
      ensures mutual <==> Like(target, me) in old(likes) || target == me
    {
      if Like(me, target) !in likes {
        WithLikeKeepsDistinct(likes, me, target);
        likes := likes + [Like(me, target)];
      }
      mutual := IsMutualLike(likes, me, target);
    }
  }

  // ---- swipe candidates ----

  predicate HasMatchingPhotos(p: Profile) {
    p.matchingPhotos.Some? && p.matchingPhotos.value != []
  }

  /** The users `getCandidates` never shows: friends, followed users, followers and mutual likes. */
  function ExcludedUsers(friends: set<UserId>, following: set<UserId>, followers: set<UserId>,
                         likes: seq<Like>, me: UserId): (r: set<UserId>)
    ensures forall x :: x in r <==>
              x in friends || x in following || x in followers || IsMutualLike(likes, me, x)
  {
    friends + following + followers + MutualLikes(likes, me)
  }

  /** The candidate list of `getCandidates` before sorting: profiles with matching photos
      whose owner is not excluded, in their original order. */
  function SwipeCandidates(available: seq<Profile>, excluded: set<UserId>): (r: seq<Profile>)
    requires forall p :: p in available ==> p.owner.Some?
    ensures forall p :: p in r <==> p in available && HasMatchingPhotos(p) && p.owner.value.id !in excluded
    ensures IsSubseq(r, available)
  {
    Filter(available, (p: Profile) => p.owner.Some? && HasMatchingPhotos(p) && p.owner.value.id !in excluded)
  }
}

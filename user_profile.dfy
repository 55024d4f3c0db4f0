/** The `UserProfile` entity: the profile fields, their defaults, and the display helpers.
    Timestamps (`createdAt`, `updatedAt`, `lastSeen`) are not part of this model. */
module UserProfiles {
  import opened Wrappers
  import opened Ids

  datatype OnlineStatus = Online | Away | Busy | Offline

  datatype PrivacyLevel = Public | FriendsOnly | PrivateProfile

  datatype AgeGroup = Teens | Twenties | Thirties | Forties | FiftiesPlus | AgeNotSpecified

  datatype ChatStyle = Casual | Serious | Funny | Deep | Light | Creative | StyleNotSpecified

  /** The enum's declaration position, which is what `ordinal()` returns. */
  function AgeOrdinal(g: AgeGroup): (n: nat)
    ensures n <= 5
    ensures n == 5 <==> g == AgeNotSpecified
  {
    match g
    case Teens => 0
    case Twenties => 1
    case Thirties => 2
    case Forties => 3
    case FiftiesPlus => 4
    case AgeNotSpecified => 5
  }

  /** The owning user, as far as profiles need it. */
  datatype Owner = Owner(id: UserId, username: string)

  /** A profile; `None` stands for a null column. `matchingPhotos` is the comma-separated
      photo list the swipe candidates are filtered on. */
  datatype Profile = Profile(
    owner: Option<Owner>,
    displayName: Option<string>,
    bio: Option<string>,
    avatarUrl: Option<string>,
    status: Option<string>,
    onlineStatus: OnlineStatus,
    location: Option<string>,
    birthDate: Option<Millis>,
    privacyLevel: PrivacyLevel,
    isSearchable: bool,
    allowRandomMatching: bool,
    interests: Option<string>,
    hobbies: Option<string>,
    favoriteThings: Option<string>,
    ageGroup: Option<AgeGroup>,
    chatStyle: Option<ChatStyle>,
    musicGenres: Option<string>,
    movieGenres: Option<string>,
    languages: Option<string>,
    personalityTraits: Option<string>,
    matchingPhotos: Option<string>)

  const DefaultAvatarUrl: string := "/images/default-avatar.svg"

  /** `new UserProfile(user)`: offline, public, searchable, open to random matching, and
      shown under the user's own name; every optional field is empty. */
  function NewProfile(owner: Owner): (p: Profile)
    ensures p.owner == Some(owner) && p.displayName == Some(owner.username)
    ensures p.onlineStatus == Offline && p.privacyLevel == Public
    ensures p.isSearchable && p.allowRandomMatching
    ensures p.avatarUrl.None? && p.ageGroup.None? && p.chatStyle.None? && p.favoriteThings.None?
  {
    Profile(Some(owner), Some(owner.username), None, None, None, Offline, None, None, Public, true, true,
            None, None, None, None, None, None, None, None, None, None)
  }

  /** `getDisplayNameOrUsername`: a non-empty display name, else the owner's username,
      else "Unknown User". */
  function DisplayNameOrUsername(p: Profile): (r: string)
    ensures p.displayName.Some? && p.displayName.value != [] ==> r == p.displayName.value
    ensures (p.displayName.None? || p.displayName.value == []) && p.owner.Some? ==> r == p.owner.value.username
    ensures (p.displayName.None? || p.displayName.value == []) && p.owner.None? ==> r == "Unknown User"
  {
    if p.displayName.Some? && p.displayName.value != [] then p.displayName.value
    else if p.owner.Some? then p.owner.value.username
    else "Unknown User"
  }

  /** A fresh profile is always shown under its owner's username, even when that is empty. */
  lemma NewProfileShowsUsername(owner: Owner)
    ensures DisplayNameOrUsername(NewProfile(owner)) == owner.username
  {
  }

  /** `getAvatarUrlOrDefault`: never empty, and the profile's own URL whenever it has one. */
  function AvatarUrlOrDefault(p: Profile): (r: string)
    ensures r != []
    ensures p.avatarUrl.Some? && p.avatarUrl.value != [] ==> r == p.avatarUrl.value
    ensures p.avatarUrl.None? || p.avatarUrl.value == [] ==> r == DefaultAvatarUrl
  {
    if p.avatarUrl.Some? && p.avatarUrl.value != [] then p.avatarUrl.value else DefaultAvatarUrl
  }

  /** `isOnline`: only the ONLINE status counts; away and busy users are not online. */
  predicate IsOnline(p: Profile) {
    p.onlineStatus == Online
  }

  lemma FreshProfileIsOffline(owner: Owner)
    ensures !IsOnline(NewProfile(owner))
    ensures AvatarUrlOrDefault(NewProfile(owner)) == DefaultAvatarUrl
  {
  }
}

/** `UserProfileService`: profile lookup-or-create, the field copy of `updateProfile`, the
    avatar upload checks, the visibility rule and the random-matching candidate filter.
    The profile table is a map from the owner's id to the profile. */
module ProfileService {
  import opened Wrappers
  import opened Ids
  import opened Text
  import opened Collections
  import opened Uploads
  import opened UserProfiles

  /** `getFileExtension`: the suffix that starts at the last '.', or "" when there is none. */
  function FileExtension(name: string): (r: string)
    ensures '.' !in name <==> r == ""
    ensures r != "" ==> r[0] == '.' && '.' !in r[1..] && EndsWith(name, r)
  {
    var dot := LastIndexOf(name, '.');
    if dot == -1 then ""
    else
      assert name[dot..][1..] == name[dot + 1..];
      name[dot..]
  }

  /** The extension-list loop of `uploadAvatar`: a flag set when an allowed extension equals
      the candidate, and the search stops there. */
  method IsAllowedExtension(extension: string) returns (isValid: bool)
    ensures isValid <==> extension in AllowedImageExtensions
  {
    isValid := false;
    var i := 0;
    while i < |AllowedImageExtensions|
      invariant 0 <= i <= |AllowedImageExtensions|
      invariant isValid <==> extension in AllowedImageExtensions[..i]
    {
      if extension == AllowedImageExtensions[i] {
        isValid := true;
        assert extension in AllowedImageExtensions[..i + 1];
        break;
      }
      assert AllowedImageExtensions[..i + 1] == AllowedImageExtensions[..i] + [AllowedImageExtensions[i]];
      i := i + 1;
    }
    assert !isValid ==> AllowedImageExtensions[..i] == AllowedImageExtensions;
  }

  datatype AvatarError = NoFileSelected | FileTooLarge | InvalidFileName | UnsupportedFormat

  /** The checks `uploadAvatar` makes before anything is written, in their order; the result
      is the lower-cased extension the stored file is named with. A name without a dot has
      the extension "", which is not allowed. */
  method ValidateAvatar(file: UploadedFile) returns (r: Result<string, AvatarError>)
    ensures file.size == 0 ==> r == Err(NoFileSelected)
    ensures 0 < file.size && file.size > MaxFileSize ==> r == Err(FileTooLarge)
    ensures 0 < file.size <= MaxFileSize && file.originalFilename.None? ==> r == Err(InvalidFileName)
    ensures 0 < file.size <= MaxFileSize && file.originalFilename.Some? ==>
              var ext := ToLower(FileExtension(file.originalFilename.value));
              r == if ext in AllowedImageExtensions then Ok(ext) else Err(UnsupportedFormat)
    ensures r.Ok? ==> r.value in AllowedImageExtensions && file.originalFilename.Some?
                      && r.value == ToLower(FileExtension(file.originalFilename.value))
  {
    if file.size == 0 {
      return Err(NoFileSelected);
    }
    if file.size > MaxFileSize {
      return Err(FileTooLarge);
    }
    if file.originalFilename.None? {
      return Err(InvalidFileName);
    }
    var extension := ToLower(FileExtension(file.originalFilename.value));
    var isValid := IsAllowedExtension(extension);
    if !isValid {
      return Err(UnsupportedFormat);
    }
    r := Ok(extension);
  }

  /** Every accepted avatar name really ends in the accepted extension, ignoring case. */
  lemma AcceptedAvatarEndsWithExtension(name: string)
    requires ToLower(FileExtension(name)) in AllowedImageExtensions
    ensures '.' in name
    ensures EndsWith(ToLower(name), ToLower(FileExtension(name)))
  {
    var ext := FileExtension(name);
    assert ext != "" by { assert ToLower("") == ""; }
    var k := |name| - |ext|;
    assert name[k..] == ext;
    assert ToLower(name)[k..] == ToLower(ext);
  }

  /** `canViewProfile`: no profile or no viewer means no; the owner always may; otherwise
      PUBLIC and FRIENDS_ONLY profiles are visible (friendship is not checked) and PRIVATE
      ones are not. */
  function CanViewProfile(profile: Option<Profile>, viewer: Option<Owner>): (r: bool)
    ensures profile.None? || viewer.None? ==> !r
    ensures profile.Some? && viewer.Some? && profile.value.owner == viewer ==> r
    ensures profile.Some? && viewer.Some? && profile.value.owner != viewer ==>
              (r <==> profile.value.privacyLevel != PrivateProfile)
  {
    if profile.None? || viewer.None? then false
    else if profile.value.owner == viewer then true
    else match profile.value.privacyLevel
      case Public => true
      case FriendsOnly => true
      case PrivateProfile => false
  }

  /** Only a PRIVATE profile can be hidden, and never from its owner. */
  lemma HiddenOnlyWhenPrivate(p: Profile, viewer: Owner)
    requires !CanViewProfile(Some(p), Some(viewer))
    ensures p.privacyLevel == PrivateProfile && p.owner != Some(viewer)
  {
  }

  /** The fields `updateProfile` copies from the submitted profile; the owner, avatar, online
      status and photo list stay as they were. */
  function UpdatedProfile(existing: Profile, updated: Profile): (r: Profile)
    ensures r.owner == existing.owner && r.avatarUrl == existing.avatarUrl
    ensures r.onlineStatus == existing.onlineStatus && r.matchingPhotos == existing.matchingPhotos
    ensures r.displayName == updated.displayName && r.bio == updated.bio && r.status == updated.status
    ensures r.location == updated.location && r.birthDate == updated.birthDate
    ensures r.privacyLevel == updated.privacyLevel && r.isSearchable == updated.isSearchable
    ensures r.allowRandomMatching == updated.allowRandomMatching
    ensures r.ageGroup == updated.ageGroup && r.chatStyle == updated.chatStyle
    ensures r.interests == updated.interests && r.hobbies == updated.hobbies
    ensures r.favoriteThings == updated.favoriteThings && r.musicGenres == updated.musicGenres
    ensures r.movieGenres == updated.movieGenres && r.languages == updated.languages
    ensures r.personalityTraits == updated.personalityTraits
  {
    existing.(displayName := updated.displayName, bio := updated.bio, status := updated.status,
              location := updated.location, birthDate := updated.birthDate,
              privacyLevel := updated.privacyLevel, isSearchable := updated.isSearchable,
              allowRandomMatching := updated.allowRandomMatching, ageGroup := updated.ageGroup,
              chatStyle := updated.chatStyle, interests := updated.interests, hobbies := updated.hobbies,
              favoriteThings := updated.favoriteThings, musicGenres := updated.musicGenres,
              movieGenres := updated.movieGenres, languages := updated.languages,
              personalityTraits := updated.personalityTraits)
  }

  /** Submitting the same form twice gives the same profile as submitting it once, and a
      submission that repeats the stored values changes nothing. */
  lemma UpdatedProfileIdempotent(existing: Profile, updated: Profile)
    ensures UpdatedProfile(UpdatedProfile(existing, updated), updated) == UpdatedProfile(existing, updated)
    ensures UpdatedProfile(existing, existing) == existing
  {
  }

  /** The filter of `getAvailableForRandomMatching` over the repository's base list (profiles
      that allow random matching, other than the caller's): friends, users the caller
      blocked, and users with a pending request either way are dropped, order kept. */
  function AvailableForRandomMatching(candidates: seq<Profile>, friendIds: seq<UserId>, blockedIds: seq<UserId>,
                                      sentRequestIds: seq<UserId>, receivedRequestIds: seq<UserId>): (r: seq<Profile>)
    requires forall p :: p in candidates ==> p.owner.Some?
    ensures IsSubseq(r, candidates)
    ensures forall p :: p in r <==> p in candidates
                                    && p.owner.value.id !in friendIds && p.owner.value.id !in blockedIds
                                    && p.owner.value.id !in sentRequestIds && p.owner.value.id !in receivedRequestIds
  {
    Filter(candidates, (p: Profile) =>
      p.owner.Some? && p.owner.value.id !in friendIds && p.owner.value.id !in blockedIds
      && p.owner.value.id !in sentRequestIds && p.owner.value.id !in receivedRequestIds)
  }

  /** What `findAvailableForRandomMatching` selects: profiles open to random matching whose
      owner is not the caller. */
  function RandomMatchingBase(profiles: seq<Profile>, callerId: UserId): (r: seq<Profile>)
    ensures IsSubseq(r, profiles)
    ensures forall p :: p in r <==> p in profiles && p.allowRandomMatching && p.owner.Some? && p.owner.value.id != callerId
  {
    Filter(profiles, (p: Profile) => p.allowRandomMatching && p.owner.Some? && p.owner.value.id != callerId)
  }

  /** The caller never appears among the random-matching candidates. */
  lemma CallerNeverCandidate(profiles: seq<Profile>, caller: UserId, friendIds: seq<UserId>, blockedIds: seq<UserId>,
                             sentRequestIds: seq<UserId>, receivedRequestIds: seq<UserId>)
    ensures var base := RandomMatchingBase(profiles, caller);
            forall p :: p in AvailableForRandomMatching(base, friendIds, blockedIds, sentRequestIds, receivedRequestIds)
                        ==> p.owner.value.id != caller && p.allowRandomMatching
  {
  }

  /** Where an uploaded avatar is served from: "/uploads/avatars/<user id>_<uuid><extension>". */
  function AvatarUrl(userId: UserId, uuid: string, extension: string): (r: string)
    ensures StartsWith(r, "/uploads/avatars/") && EndsWith(r, extension)
  {
    var name := NatToString(userId) + "_" + uuid + extension;
    assert ("/uploads/avatars/" + name)[|"/uploads/avatars/" + name| - |extension|..] == extension;
    "/uploads/avatars/" + name
  }

  /** The profile table. */
  class ProfileStore {
    var profiles: map<UserId, Profile>

    ghost predicate Valid()
      reads this
    {
      forall id :: id in profiles ==> profiles[id].owner.Some? && profiles[id].owner.value.id == id
    }

    constructor ()
      ensures Valid() && profiles == map[]
    {
      profiles := map[];
    }

    /** `getOrCreateProfile`: the stored profile, or a new default one that is saved. */
    method GetOrCreateProfile(owner: Owner) returns (p: Profile)
      requires Valid()
      modifies this
      ensures Valid()
      ensures owner.id in old(profiles) ==> p == old(profiles)[owner.id] && profiles == old(profiles)
      ensures owner.id !in old(profiles) ==> p == NewProfile(owner) && profiles == old(profiles)[owner.id := p]
      ensures owner.id in profiles && profiles[owner.id] == p
    {
      if owner.id in profiles {
        p := profiles[owner.id];
      } else {
        p := NewProfile(owner);
        profiles := profiles[owner.id := p];
      }
    }

    /** `updateProfile`: the listed fields of the submitted profile are copied onto the
        stored (or newly created) one. */
    method UpdateProfile(owner: Owner, updated: Profile) returns (p: Profile)
      requires Valid()
      modifies this
      ensures Valid()
      ensures var before := if owner.id in old(profiles) then old(profiles)[owner.id] else NewProfile(owner);
              p == UpdatedProfile(before, updated) && profiles == old(profiles)[owner.id := p]
    {
      var existing := GetOrCreateProfile(owner);
      p := UpdatedProfile(existing, updated);
      profiles := profiles[owner.id := p];
    }

    /** `uploadAvatar`: after `ValidateAvatar`, the profile's avatar URL becomes
        "/uploads/avatars/<user id>_<uuid><extension>"; on a rejected file nothing changes.
        Writing the file itself is not modelled. */
    method UploadAvatar(owner: Owner, file: UploadedFile, uuid: string) returns (r: Result<Profile, AvatarError>)
      requires Valid()
      modifies this
      ensures Valid()
      ensures r.Err? ==> profiles == old(profiles)
      ensures r.Ok? ==> file.originalFilename.Some?
      ensures r.Ok? ==> var before := if owner.id in old(profiles) then old(profiles)[owner.id] else NewProfile(owner);
                        var ext := ToLower(FileExtension(file.originalFilename.value));
                        ext in AllowedImageExtensions
                        && r.value == before.(avatarUrl := Some(AvatarUrl(owner.id, uuid, ext)))
                        && profiles == old(profiles)[owner.id := r.value]
    {
      var checked := ValidateAvatar(file);
      if checked.Err? {
        return Err(checked.error);
      }
      var p := SetAvatarUrl(owner, AvatarUrl(owner.id, uuid, checked.value));
      r := Ok(p);
    }

    /** The stored (or newly created) profile with its avatar URL replaced, saved. */
    method SetAvatarUrl(owner: Owner, url: string) returns (p: Profile)
      requires Valid()
      modifies this
      ensures Valid()
      ensures var before := if owner.id in old(profiles) then old(profiles)[owner.id] else NewProfile(owner);
              p == before.(avatarUrl := Some(url)) && profiles == old(profiles)[owner.id := p]
    {
      p := GetOrCreateProfile(owner);
      p := p.(avatarUrl := Some(url));
      profiles := profiles[owner.id := p];
    }
  }
}

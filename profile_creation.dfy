/** `ProfileCreationController`: the profile form shown to a newly registered user, and its
    submission, which fills in the profile, counts each favourite-thing tag in the tag
    table, signs the user in and clears the registration marker from the session. The
    user table is a map from ids to owners; the tag table maps tag names to usage counts. */
module ProfileCreation {
  import opened Wrappers
  import opened Ids
  import opened Text
  import opened UserProfiles
  import opened RandomMatchingView

  const LoginRedirect: string := "redirect:/login"
  const HomeRedirect: string := "redirect:/home"
  const CreateProfileView: string := "create-profile"

  /** The trimmed, non-empty pieces, in order and with repeats. */
  function TrimmedTags(pieces: seq<string>): (r: seq<string>)
    ensures |r| <= |pieces|
    ensures forall t :: t in r ==> t != []
  {
    if pieces == [] then []
    else
      var t := Trim(pieces[0]);
      if t != [] then [t] + TrimmedTags(pieces[1..]) else TrimmedTags(pieces[1..])
  }

  /** A tag is in the list exactly when it is a non-empty trimmed piece. */
  lemma {:induction false} TrimmedTagsMembers(pieces: seq<string>)
    ensures forall t :: t in TrimmedTags(pieces) <==> t != [] && TrimOfSome(pieces, t)
  {
    if pieces != [] {
      var head, rest := Trim(pieces[0]), pieces[1..];
      TrimmedTagsMembers(rest);
      assert TrimmedTags(pieces) == (if head != [] then [head] else []) + TrimmedTags(rest);
      forall t ensures TrimOfSome(pieces, t) <==> head == t || TrimOfSome(rest, t) {
        TrimOfSomeStep(pieces, t);
      }
    }
  }

  /** Some piece trims to `t`. */
  predicate TrimOfSome(pieces: seq<string>, t: string) {
    exists p :: p in pieces && Trim(p) == t
  }

  lemma TrimOfSomeStep(pieces: seq<string>, t: string)
    requires pieces != []
    ensures TrimOfSome(pieces, t) <==> Trim(pieces[0]) == t || TrimOfSome(pieces[1..], t)
  {
    if TrimOfSome(pieces, t) && Trim(pieces[0]) != t {
      var p :| p in pieces && Trim(p) == t;
      assert p in pieces[1..];
    }
    if TrimOfSome(pieces[1..], t) {
      var p :| p in pieces[1..] && Trim(p) == t;
      assert p in pieces;
    }
  }

  /** The tag list of `createProfile`: the comma-separated pieces, trimmed, empty ones
      dropped. */
  function TagList(favoriteThings: string): (r: seq<string>)
    ensures forall t :: t in r ==> t != [] && ',' !in t
  {
    TrimmedTagsMembers(Split(favoriteThings, ','));
    assert forall p :: p in Split(favoriteThings, ',') ==> ',' !in p && ',' !in Trim(p);
    TrimmedTags(Split(favoriteThings, ','))
  }

  /** The profile form lists the same tags, as a set, as random matching reads from it. */
  lemma TagListMatchesTagSet(favoriteThings: string)
    requires favoriteThings != []
    ensures (set t | t in TagList(favoriteThings)) == TagSet(Some(favoriteThings))
  {
    TrimmedTagsMembers(Split(favoriteThings, ','));
  }

  /** How often a tag occurs in the list. */
  function Uses(tags: seq<string>, name: string): (n: nat)
    ensures n <= |tags|
    ensures n == 0 <==> name !in tags
  {
    if tags == [] then 0
    else (if tags[0] == name then 1 else 0) + Uses(tags[1..], name)
  }

  function UsageOf(usage: map<string, int>, name: string): int {
    if name in usage then usage[name] else 0
  }

  /** One use of a tag, as intended: its count rises by one, an unknown tag starting from
      zero, and every other tag is left alone. */
  function Bump(usage: map<string, int>, name: string): (r: map<string, int>)
    ensures r.Keys == usage.Keys + {name}
    ensures UsageOf(r, name) == UsageOf(usage, name) + 1
    ensures forall n :: n != name && n in usage ==> r[n] == usage[n]
  {
    usage[name := UsageOf(usage, name) + 1]
  }

  /** The tag table after counting every tag of the list, in order, as intended: the known
      tags and the listed ones. */
  function Recorded(usage: map<string, int>, tags: seq<string>): (r: map<string, int>)
    ensures forall n :: n in r <==> n in usage || n in tags
    decreases |tags|
  {
    if tags == [] then usage
    else
      var r := Recorded(Bump(usage, tags[0]), tags[1..]);
      assert forall n :: n in tags <==> n == tags[0] || n in tags[1..];
      r
  }

  /** Counting a list raises each tag's count by its number of occurrences, adds the new
      tags, and leaves every other tag alone. */
  lemma {:induction false} RecordedCounts(usage: map<string, int>, tags: seq<string>, name: string)
    ensures UsageOf(Recorded(usage, tags), name) == UsageOf(usage, name) + Uses(tags, name)
    ensures name in Recorded(usage, tags) <==> name in usage || name in tags
    decreases |tags|
  {
    if tags != [] {
      RecordedCounts(Bump(usage, tags[0]), tags[1..], name);
      assert name in tags <==> name == tags[0] || name in tags[1..];
    }
  }

  /** One use of a tag as written: a tag seen for the first time is created by
      `new FavoriteTag(name)`, whose count is already 1, and then incremented once more. */
  function BumpAsWritten(usage: map<string, int>, name: string): (r: map<string, int>)
    ensures r.Keys == usage.Keys + {name}
    ensures UsageOf(r, name) == UsageOf(usage, name) + (if name in usage then 1 else 2)
    ensures forall n :: n != name && n in usage ==> r[n] == usage[n]
  {
    usage[name := (if name in usage then usage[name] else 1) + 1]
  }

  /** The tag table after the tag loop as written: the known tags and the listed ones. */
  function RecordedAsWritten(usage: map<string, int>, tags: seq<string>): (r: map<string, int>)
    ensures forall n :: n in r <==> n in usage || n in tags
    decreases |tags|
  {
    if tags == [] then usage
    else
      var r := RecordedAsWritten(BumpAsWritten(usage, tags[0]), tags[1..]);
      assert forall n :: n in tags <==> n == tags[0] || n in tags[1..];
      r
  }

  /** The loop as written raises each tag's count by its number of occurrences, plus one
      more for a tag that was not in the table before; other tags are left alone. */
  lemma {:induction false} RecordedAsWrittenCounts(usage: map<string, int>, tags: seq<string>, name: string)
    ensures UsageOf(RecordedAsWritten(usage, tags), name)
            == UsageOf(usage, name) + Uses(tags, name) + (if name !in usage && name in tags then 1 else 0)
    decreases |tags|
  {
    if tags != [] {
      RecordedAsWrittenCounts(BumpAsWritten(usage, tags[0]), tags[1..], name);
      assert name in tags <==> name == tags[0] || name in tags[1..];
    }
  }

  /** A profile naming a new tag once leaves that tag counted twice as written, once in
      the corrected count. */
  lemma NewTagCountedTwiceAsWritten(usage: map<string, int>, name: string)
    requires name !in usage
    ensures name in RecordedAsWritten(usage, [name]) && RecordedAsWritten(usage, [name])[name] == 2
    ensures name in Recorded(usage, [name]) && Recorded(usage, [name])[name] == 1 == Uses([name], name)
  {
    assert [name][1..] == [];
  }

  /** A profile's form fields: the display name, the bio or "" for a missing one, and the
      favourite things, or "" when they are missing or blank. */
  function Filled(base: Profile, displayName: string, bio: Option<string>, favoriteThings: Option<string>): (p: Profile)
    ensures p.displayName == Some(displayName)
    ensures bio.Some? ==> p.bio == bio
    ensures p.favoriteThings.Some? && (HasFavorites(favoriteThings) <==> p.favoriteThings == favoriteThings && p.favoriteThings.value != [])
    ensures p.owner == base.owner && p.avatarUrl == base.avatarUrl && p.onlineStatus == base.onlineStatus
    ensures p.privacyLevel == base.privacyLevel && p.ageGroup == base.ageGroup && p.chatStyle == base.chatStyle
  {
    base.(displayName := Some(displayName),
          bio := Some(if bio.Some? then bio.value else ""),
          favoriteThings := Some(if HasFavorites(favoriteThings) then favoriteThings.value else ""))
  }

  /** Favourite things that are given and not blank. */
  predicate HasFavorites(favoriteThings: Option<string>) {
    favoriteThings.Some? && !IsBlank(favoriteThings.value)
  }

  /** A first profile keeps the defaults of a new one: offline, public, searchable, open to
      random matching, with no avatar. */
  lemma FirstProfileDefaults(owner: Owner, displayName: string, bio: Option<string>, favoriteThings: Option<string>)
    ensures var p := Filled(NewProfile(owner), displayName, bio, favoriteThings);
            && p.owner == Some(owner) && p.onlineStatus == Offline && p.privacyLevel == Public
            && p.isSearchable && p.allowRandomMatching && p.avatarUrl.None?
  {
  }

  /** `showProfileCreationPage`: the form for a registered user still marked in the
      session, the login page otherwise. */
  function ShowProfileCreationPage(newUserId: Option<UserId>, users: map<UserId, Owner>): (view: string)
    ensures view == CreateProfileView <==> newUserId.Some? && newUserId.value in users
    ensures view != CreateProfileView ==> view == LoginRedirect
  {
    if newUserId.None? || newUserId.value !in users then LoginRedirect else CreateProfileView
  }

  class ProfileCreationController {
    var profiles: map<UserId, Profile>
    var tagUsage: map<string, int>
    /** The session's `newUserId` attribute. */
    var newUserId: Option<UserId>
    /** The username the security context is signed in as. */
    var signedIn: Option<string>

    constructor (profiles: map<UserId, Profile>, tagUsage: map<string, int>, newUserId: Option<UserId>)
      ensures this.profiles == profiles && this.tagUsage == tagUsage && this.newUserId == newUserId
      ensures signedIn.None?
    {
      this.profiles := profiles;
      this.tagUsage := tagUsage;
      this.newUserId := newUserId;
      signedIn := None;
    }

    /** The tag loop of `createProfile`, each tag found or created and its count raised,
        as written. */
    method RecordTagUses(tags: seq<string>)
      modifies this
      ensures tagUsage == RecordedAsWritten(old(tagUsage), tags)
      ensures profiles == old(profiles) && newUserId == old(newUserId) && signedIn == old(signedIn)
    {
      for i := 0 to |tags|
        invariant RecordedAsWritten(tagUsage, tags[i..]) == RecordedAsWritten(old(tagUsage), tags)
        invariant profiles == old(profiles) && newUserId == old(newUserId) && signedIn == old(signedIn)
      {
        assert tags[i..][1..] == tags[i + 1..];
        tagUsage := BumpAsWritten(tagUsage, tags[i]);
      }
      assert tags[|tags|..] == [];
    }

    /** The tag counting of `createProfile`, for favourite things that are given and not
        blank. */
    method RecordFavorites(favoriteThings: Option<string>)
      modifies this
      ensures tagUsage == if HasFavorites(favoriteThings) then RecordedAsWritten(old(tagUsage), TagList(favoriteThings.value))
                          else old(tagUsage)
      ensures profiles == old(profiles) && newUserId == old(newUserId) && signedIn == old(signedIn)
    {
      if HasFavorites(favoriteThings) {
        RecordTagUses(TagList(favoriteThings.value));
      }
    }

    /** `createProfile`: without a marked, known user nothing changes and the login page
        follows. Otherwise the user's profile, or a new one, takes the form fields; the
        favourite-thing tags are counted when there are any; the user is signed in, the
        marker is removed and the home page follows. */
    method CreateProfile(users: map<UserId, Owner>, displayName: string, bio: Option<string>,
                         favoriteThings: Option<string>)
      returns (view: string)
      modifies this
      ensures old(newUserId).None? || old(newUserId).value !in users ==>
                view == LoginRedirect && profiles == old(profiles) && tagUsage == old(tagUsage)
                && newUserId == old(newUserId) && signedIn == old(signedIn)
      ensures old(newUserId).Some? && old(newUserId).value in users ==>
                var id := old(newUserId).value;
                var base := if id in old(profiles) then old(profiles)[id] else NewProfile(users[id]);
                && view == HomeRedirect
                && profiles == old(profiles)[id := Filled(base, displayName, bio, favoriteThings)]
                && tagUsage == (if HasFavorites(favoriteThings)
                                then RecordedAsWritten(old(tagUsage), TagList(favoriteThings.value))
                                else old(tagUsage))
                && newUserId.None? && signedIn == Some(users[id].username)
    {
      if newUserId.None? || newUserId.value !in users {
        return LoginRedirect;
      }
      var id := newUserId.value;
      var owner := users[id];
      var base := if id in profiles then profiles[id] else NewProfile(owner);
      RecordFavorites(favoriteThings);
      profiles := profiles[id := Filled(base, displayName, bio, favoriteThings)];
      signedIn := Some(owner.username);
      newUserId := None;
      view := HomeRedirect;
    }
  }
}

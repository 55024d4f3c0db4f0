/** `LeonardoService`: the avatar-generation prompt built from a persona's gender, age
    group and personality, the not-configured guard, and the status polling that waits
    for a generation to finish. The API calls are parameters: whether the generation
    request yielded an id, and what each status poll answered. The one-second sleeps
    between polls are not modelled. */
module Leonardo {
  import opened Wrappers
  import opened Text

  const BaseStyle: string := "anime style portrait, high quality, detailed, "
  const QualityTail: string := "bust shot, facing viewer, simple background, soft lighting, masterpiece, best quality"
  const DefaultGender: string := "androgynous person, "

  const SinglePolls: nat := 30
  const ManyPolls: nat := 60

  /** `isConfigured`: a non-null, non-empty API key. */
  predicate IsConfigured(apiKey: Option<string>) {
    apiKey.Some? && apiKey.value != ""
  }

  /** A null switch value is switched on as "". */
  function OrEmpty(s: Option<string>): string {
    if s.Some? then s.value else ""
  }

  function GenderPhrase(gender: string): (r: string)
    ensures r != ""
    ensures r == DefaultGender <==> gender != "male" && gender != "female"
  {
    if gender == "male" then "young man, handsome, "
    else if gender == "female" then "young woman, beautiful, cute, "
    else DefaultGender
  }

  function AgePhrase(ageGroup: string): (r: string)
    ensures r == "" <==> ageGroup !in {"teen", "twenties", "thirties", "forties"}
  {
    if ageGroup == "teen" then "teenager, youthful, "
    else if ageGroup == "twenties" then "in their 20s, "
    else if ageGroup == "thirties" then "mature, in their 30s, "
    else if ageGroup == "forties" then "mature adult, elegant, "
    else ""
  }

  function PersonalityPhrase(personality: string): (r: string)
    ensures r == "" <==> personality !in {"cheerful", "calm", "cool", "tsundere", "gentle", "playful"}
  {
    if personality == "cheerful" then "bright smile, happy expression, warm colors, "
    else if personality == "calm" then "gentle smile, serene expression, soft colors, "
    else if personality == "cool" then "confident smirk, cool expression, blue tones, "
    else if personality == "tsundere" then "slight blush, looking away, pink accents, "
    else if personality == "gentle" then "kind eyes, warm smile, soft lighting, "
    else if personality == "playful" then "playful wink, mischievous smile, vibrant colors, "
    else ""
  }

  /** `buildPrompt`: the fixed style, a gender phrase (an androgynous one for anything but
      "male" and "female"), the age and personality phrases when recognised, and the
      fixed quality tail. */
  function BuildPrompt(gender: Option<string>, ageGroup: Option<string>, personality: Option<string>): (r: string)
    ensures StartsWith(r, BaseStyle) && EndsWith(r, QualityTail)
    ensures Contains(r, GenderPhrase(OrEmpty(gender)))
  {
    var g := GenderPhrase(OrEmpty(gender));
    var rest := AgePhrase(OrEmpty(ageGroup)) + PersonalityPhrase(OrEmpty(personality));
    StartsWithItself(g);
    FourParts(BaseStyle, g, rest, QualityTail, g);
    BaseStyle + g + rest + QualityTail
  }

  lemma StartsWithItself(s: string)
    ensures StartsWith(s, s)
  {
    assert s[..|s|] == s;
  }

  /** Null settings read as unrecognised ones: the prompt is the bare style, the
      androgynous phrase and the quality tail. */
  lemma BarePrompt(gender: Option<string>, ageGroup: Option<string>, personality: Option<string>)
    requires gender.None? || gender.value !in {"male", "female"}
    requires ageGroup.None? || ageGroup.value !in {"teen", "twenties", "thirties", "forties"}
    requires personality.None? || personality.value !in {"cheerful", "calm", "cool", "tsundere", "gentle", "playful"}
    ensures BuildPrompt(gender, ageGroup, personality) == BaseStyle + DefaultGender + QualityTail
  {
    assert AgePhrase(OrEmpty(ageGroup)) == "";
    assert PersonalityPhrase(OrEmpty(personality)) == "";
  }

  /** What one status poll saw: nothing usable (an exception, no body, or no
      `generations_by_pk`), or the generation's status and its image URLs. */
  datatype Poll = NoGeneration | Generation(status: Option<string>, images: Option<seq<Option<string>>>)

  /** A poll that ends the waiting: a finished generation with images, or a failed one.
      A finished generation without images, or any other status, goes on polling. */
  predicate Decisive(p: Poll) {
    p.Generation? &&
    ((p.status == Some("COMPLETE") && p.images.Some? && p.images.value != []) || p.status == Some("FAILED"))
  }

  /** The first poll that ends the waiting. */
  function FirstDecisive(polls: seq<Poll>): (r: Option<nat>)
    ensures r.None? <==> forall j :: 0 <= j < |polls| ==> !Decisive(polls[j])
    ensures r.Some? ==> r.value < |polls| && Decisive(polls[r.value])
                        && forall j :: 0 <= j < r.value ==> !Decisive(polls[j])
  {
    if polls == [] then None
    else if Decisive(polls[0]) then Some(0)
    else
      var r := FirstDecisive(polls[1..]);
      assert forall j :: 1 <= j < |polls| ==> polls[1..][j - 1] == polls[j];
      if r.None? then None else Some(r.value + 1)
  }

  /** The image URLs the polls lead to: those of the first decisive poll when it is a
      finished generation, and none when it failed or no poll was decisive. */
  function UrlsOf(polls: seq<Poll>): (r: seq<Option<string>>)
    ensures FirstDecisive(polls).None? ==> r == []
    ensures FirstDecisive(polls).Some? && polls[FirstDecisive(polls).value].status == Some("FAILED") ==> r == []
    ensures r != [] ==> var k := FirstDecisive(polls).value;
                        polls[k].status == Some("COMPLETE") && r == polls[k].images.value
  {
    var k := FirstDecisive(polls);
    if k.None? || polls[k.value].status == Some("FAILED") then [] else polls[k.value].images.value
  }

  /** `waitForGenerationAndGetUrl`: up to 30 polls; the first URL of a finished
      generation, or null when it failed or the polls ran out. */
  method WaitForGenerationAndGetUrl(polls: seq<Poll>) returns (url: Option<string>)
    requires |polls| >= SinglePolls
    ensures var all := UrlsOf(polls[..SinglePolls]); url == if all == [] then None else all[0]
  {
    var i := 0;
    while i < SinglePolls
      invariant 0 <= i <= SinglePolls
      invariant forall j :: 0 <= j < i ==> !Decisive(polls[..SinglePolls][j])
    {
      var p := polls[i];
      assert p == polls[..SinglePolls][i];
      if p.Generation? && p.status == Some("COMPLETE") {
        if p.images.Some? && p.images.value != [] {
          return p.images.value[0];
        }
      } else if p.Generation? && p.status == Some("FAILED") {
        return None;
      }
      i := i + 1;
    }
    return None;
  }

  /** `waitForGenerationAndGetUrls`: the same polling for up to 60 polls, returning every
      image URL of a finished generation and the empty list otherwise. */
  method WaitForGenerationAndGetUrls(polls: seq<Poll>) returns (urls: seq<Option<string>>)
    requires |polls| >= ManyPolls
    ensures urls == UrlsOf(polls[..ManyPolls])
  {
    var i := 0;
    while i < ManyPolls
      invariant 0 <= i <= ManyPolls
      invariant forall j :: 0 <= j < i ==> !Decisive(polls[..ManyPolls][j])
    {
      var p := polls[i];
      assert p == polls[..ManyPolls][i];
      if p.Generation? && p.status == Some("COMPLETE") {
        if p.images.Some? && p.images.value != [] {
          urls := [];
          var k := 0;
          while k < |p.images.value|
            invariant 0 <= k <= |p.images.value|
            invariant urls == p.images.value[..k]
          {
            urls := urls + [p.images.value[k]];
            k := k + 1;
          }
          assert p.images.value[..k] == p.images.value;
          return urls;
        }
      } else if p.Generation? && p.status == Some("FAILED") {
        return [];
      }
      i := i + 1;
    }
    return [];
  }

  /** Polls that never finish or fail give nothing, however long the window. */
  lemma {:induction false} UndecidedGivesNothing(polls: seq<Poll>)
    requires forall j :: 0 <= j < |polls| ==> polls[j].NoGeneration? || polls[j].status == Some("PENDING")
    ensures UrlsOf(polls) == []
  {
    assert forall j :: 0 <= j < |polls| ==> !Decisive(polls[j]);
  }

  /** A generation that finishes within the first 30 polls gives the same first URL to
      both waiting loops. */
  lemma SingleIsFirstOfMany(polls: seq<Poll>)
    requires |polls| >= ManyPolls
    requires FirstDecisive(polls[..SinglePolls]).Some?
    ensures UrlsOf(polls[..SinglePolls]) == UrlsOf(polls[..ManyPolls])
  {
    var k := FirstDecisive(polls[..SinglePolls]).value;
    assert polls[..SinglePolls][k] == polls[..ManyPolls][k];
    assert forall j :: 0 <= j < k ==> polls[..SinglePolls][j] == polls[..ManyPolls][j];
  }

  /** `generateAvatar`: without a key nothing is requested and the result is null;
      otherwise the prompt is sent, and the URL comes from the polling, or is null when
      the generation request gave no id. The result says which prompt was sent. */
  method GenerateAvatar(apiKey: Option<string>, gender: Option<string>, ageGroup: Option<string>,
                        personality: Option<string>, generationId: Option<string>, polls: seq<Poll>)
    returns (sent: Option<string>, url: Option<string>)
    requires |polls| >= SinglePolls
    ensures !IsConfigured(apiKey) ==> sent.None? && url.None?
    ensures IsConfigured(apiKey) ==> sent == Some(BuildPrompt(gender, ageGroup, personality))
    ensures generationId.None? ==> url.None?
    ensures IsConfigured(apiKey) && generationId.Some? ==>
              var all := UrlsOf(polls[..SinglePolls]); url == if all == [] then None else all[0]
  {
    if !IsConfigured(apiKey) {
      return None, None;
    }
    sent := Some(BuildPrompt(gender, ageGroup, personality));
    if generationId.None? {
      return sent, None;
    }
    url := WaitForGenerationAndGetUrl(polls);
  }

  /** `generateAvatars`: the same guards, with the empty list for every failure. */
  method GenerateAvatars(apiKey: Option<string>, gender: Option<string>, ageGroup: Option<string>,
                         personality: Option<string>, generationId: Option<string>, polls: seq<Poll>)
    returns (sent: Option<string>, urls: seq<Option<string>>)
    requires |polls| >= ManyPolls
    ensures !IsConfigured(apiKey) ==> sent.None? && urls == []
    ensures IsConfigured(apiKey) ==> sent == Some(BuildPrompt(gender, ageGroup, personality))
    ensures generationId.None? ==> urls == []
    ensures IsConfigured(apiKey) && generationId.Some? ==> urls == UrlsOf(polls[..ManyPolls])
  {
    if !IsConfigured(apiKey) {
      return None, [];
    }
    sent := Some(BuildPrompt(gender, ageGroup, personality));
    if generationId.None? {
      return sent, [];
    }
    urls := WaitForGenerationAndGetUrls(polls);
  }
}

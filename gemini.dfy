/** `GeminiService`: the per-user AI chat history (a list of role/parts entries), the
    persona system prompt, the chat step with its intro call, trimming to 22 entries and
    rollback on error, the reply extraction and the display view of the history. The HTTP
    call is a parameter: each call's outcome is given as an `ApiOutcome`. */
module Gemini {
  import opened Wrappers
  import opened Ids
  import opened Text

  /** One history entry: a role and the texts of its parts (`None` for a null text). */
  datatype Entry = Entry(role: string, parts: seq<Option<string>>)

  /** What the API call yields: the reply text, or an exception with its message. */
  datatype ApiOutcome = ApiReply(text: string) | ApiFailure(message: Option<string>)

  /** The persona fields the prompt reads; `None` stands for a null column. */
  datatype Persona = Persona(setupCompleted: bool, aiName: Option<string>, relationship: Option<string>,
                             gender: Option<string>, ageGroup: Option<string>,
                             personality: Option<string>, speakingStyle: Option<string>)

  /** An entry of the display history. */
  datatype DisplayEntry = DisplayEntry(role: string, text: string)

  const HistoryCap: nat := 22
  const KeptOpening: nat := 2

  const SystemMarker: string := "【システム指示】"
  const IntroRequest: string := "\n\n以下から会話を始めてください。最初の挨拶として、自己紹介をお願いします。"
  const DefaultPrompt: string := "あなたは親しみやすいAIアシスタントです。日本語で会話してください。"
  const NotConfiguredMessage: string := "AIチャットを利用するには、環境変数 GEMINI_API_KEY を設定してください。"
  const InvalidKeyMessage: string := "APIキーが無効です。正しいGemini APIキーを設定してください。"
  const RateLimitMessage: string := "APIの利用制限に達しました。しばらく待ってから再度お試しください。"
  const GenericErrorPrefix: string := "エラーが発生しました: "
  const UnknownError: string := "不明なエラー"
  const NoResponseText: string := "返答を取得できませんでした。"
  const UnparsableText: string := "返答を解析できませんでした。"

  const Trailer: string :=
    "\n【重要】\n"
    + "- 自然な会話を心がけ、ユーザーの気持ちに寄り添ってください。\n"
    + "- 長すぎない返答を心がけてください（2-4文程度）。\n"
    + "- 設定したキャラクターを一貫して演じてください。\n"
    + "- 相手の話をよく聞き、共感を示してください。\n"

  function UserEntry(text: string): Entry { Entry("user", [Some(text)]) }
  function ModelEntry(text: string): Entry { Entry("model", [Some(text)]) }

  /** `x != null ? x : ""`, the value each prompt switch is taken over. */
  function OrEmpty(v: Option<string>): string { if v.Some? then v.value else "" }

  function Header(name: string): string {
    "あなたは「" + name + "」という名前のキャラクターです。\n" + "以下の設定に従って、ユーザーと会話してください。\n\n"
  }

  /** The two lines naming the user, present only for a non-empty name. */
  function UserNameLines(userName: Option<string>): (r: string)
    ensures r == "" <==> userName.None? || userName.value == ""
  {
    if userName.Some? && userName.value != "" then
      "【相手の名前】" + userName.value + "\n" + "相手の名前を呼ぶときは「" + userName.value + "」と呼んでください。\n\n"
    else ""
  }

  function RelationshipLine(v: Option<string>): (r: string)
    ensures r == "" <==> OrEmpty(v) !in {"friend", "lover", "senior", "junior", "teacher", "family"}
  {
    match OrEmpty(v)
    case "friend" => "【関係性】ユーザーの親しい友達として接してください。\n"
    case "lover" => "【関係性】ユーザーの恋人として、愛情を込めて接してください。\n"
    case "senior" => "【関係性】ユーザーの頼れる先輩として、時に優しく時に厳しく接してください。\n"
    case "junior" => "【関係性】ユーザーの可愛い後輩として、尊敬の念を持って接してください。\n"
    case "teacher" => "【関係性】ユーザーの先生・メンターとして、導くように接してください。\n"
    case "family" => "【関係性】ユーザーの家族のように、温かく見守ってください。\n"
    case _ => ""
  }

  function GenderLine(v: Option<string>): (r: string)
    ensures r == "" <==> OrEmpty(v) !in {"male", "female", "neutral"}
  {
    match OrEmpty(v)
    case "male" => "【性別】男性として振る舞ってください。\n"
    case "female" => "【性別】女性として振る舞ってください。\n"
    case "neutral" => "【性別】性別を特定しない中性的なキャラクターとして振る舞ってください。\n"
    case _ => ""
  }

  function AgeGroupLine(v: Option<string>): (r: string)
    ensures r == "" <==> OrEmpty(v) !in {"teen", "twenties", "thirties", "forties"}
  {
    match OrEmpty(v)
    case "teen" => "【年齢】10代の若者らしいフレッシュな雰囲気で。\n"
    case "twenties" => "【年齢】20代の若々しさと落ち着きのバランスで。\n"
    case "thirties" => "【年齢】30代の大人の余裕を持って。\n"
    case "forties" => "【年齢】40代以上の包容力と経験を感じさせて。\n"
    case _ => ""
  }

  function PersonalityLine(v: Option<string>): (r: string)
    ensures r == "" <==> OrEmpty(v) !in {"cheerful", "calm", "cool", "tsundere", "gentle", "playful"}
  {
    match OrEmpty(v)
    case "cheerful" => "【性格】明るく元気で、ポジティブな性格。\n"
    case "calm" => "【性格】落ち着いていて、穏やかな性格。\n"
    case "cool" => "【性格】クールでかっこいい、少しミステリアスな性格。\n"
    case "tsundere" => "【性格】ツンデレ。普段は素っ気ないけど、時々優しさが垣間見える。\n"
    case "gentle" => "【性格】優しくて思いやりがあり、包み込むような性格。\n"
    case "playful" => "【性格】おちゃめでユーモアがあり、冗談も言う。\n"
    case _ => ""
  }

  function SpeakingStyleLine(v: Option<string>): (r: string)
    ensures r == "" <==> OrEmpty(v) !in {"casual", "polite", "formal", "dialect"}
  {
    match OrEmpty(v)
    case "casual" => "【口調】カジュアルでフランクな話し方。タメ口OK。\n"
    case "polite" => "【口調】丁寧語を基本としつつ、親しみやすさも。\n"
    case "formal" => "【口調】敬語を使った礼儀正しい話し方。\n"
    case "dialect" => "【口調】関西弁など方言を混ぜた親しみやすい話し方。\n"
    case _ => ""
  }

  /** The persona's settings, one line per recognised value. */
  function SettingsLines(p: Persona): string {
    RelationshipLine(p.relationship) + GenderLine(p.gender) + AgeGroupLine(p.ageGroup)
    + PersonalityLine(p.personality) + SpeakingStyleLine(p.speakingStyle)
  }

  /** `buildSystemPrompt`: the fixed assistant prompt without a persona; otherwise the
      character header (named "AI" when the persona has no name), the user's name when
      known, the recognised settings and the fixed closing rules. */
  function BuildSystemPrompt(persona: Option<Persona>, userName: Option<string>): (r: string)
    ensures persona.None? ==> r == DefaultPrompt
    ensures persona.Some? ==>
              && StartsWith(r, Header(if persona.value.aiName.Some? then persona.value.aiName.value else "AI"))
              && EndsWith(r, Trailer)
    ensures persona.Some? && userName.Some? && userName.value != "" ==> Contains(r, "【相手の名前】" + userName.value)
  {
    if persona.None? then DefaultPrompt
    else
      var name := if persona.value.aiName.Some? then persona.value.aiName.value else "AI";
      var lines := UserNameLines(userName);
      var sub := if userName.Some? then "【相手の名前】" + userName.value else "";
      assert userName.Some? && userName.value != "" ==> lines[..|sub|] == sub;
      FourParts(Header(name), lines, SettingsLines(persona.value), Trailer, sub);
      Header(name) + lines + SettingsLines(persona.value) + Trailer
  }

  /** A persona none of whose settings is recognised, for a user without a name, gets
      only the header and the closing rules. */
  lemma BarePersonaPrompt(p: Persona)
    requires OrEmpty(p.relationship) == "" && OrEmpty(p.gender) == "" && OrEmpty(p.ageGroup) == ""
    requires OrEmpty(p.personality) == "" && OrEmpty(p.speakingStyle) == ""
    ensures BuildSystemPrompt(Some(p), None) == Header(if p.aiName.Some? then p.aiName.value else "AI") + Trailer
  {
    assert SettingsLines(p) == "";
  }

  /** What the first history entry carries: the persona's system prompt and the request
      for an introduction. */
  function SystemPrompt(p: Persona, userName: string): string {
    BuildSystemPrompt(Some(p), Some(userName)) + IntroRequest
  }

  /** The first history entry: the system prompt marked as an instruction. */
  function SystemEntry(prompt: string): (e: Entry)
    ensures e.role == "user" && |e.parts| == 1 && e.parts[0].Some? && StartsWith(e.parts[0].value, SystemMarker)
  {
    PrefixAndSuffix(SystemMarker, prompt);
    UserEntry(SystemMarker + prompt)
  }

  /** The name used in the prompt: the profile's non-empty display name, else the username. */
  function ChatUserName(displayName: Option<string>, username: string): (r: string)
    ensures displayName.Some? && displayName.value != "" ==> r == displayName.value
    ensures displayName.None? || displayName.value == "" ==> r == username
  {
    if displayName.Some? && displayName.value != "" then displayName.value else username
  }

  /** Trimming keeps at most 22 entries: the first two and the latest twenty. */
  function Trimmed(h: seq<Entry>): (r: seq<Entry>)
    ensures |r| <= HistoryCap
    ensures |h| <= HistoryCap ==> r == h
    ensures |h| >= KeptOpening ==> |r| >= KeptOpening && r[..KeptOpening] == h[..KeptOpening]
    ensures var k := if |h| < 20 then |h| else 20; |r| >= k && r[|r| - k..] == h[|h| - k..]
  {
    if |h| <= HistoryCap then h else h[..2] + h[|h| - 20..]
  }

  /** The trimming loop of `chat`: while more than 22 entries remain, the one at index 2
      is removed. */
  method TrimHistory(h: seq<Entry>) returns (r: seq<Entry>)
    ensures r == Trimmed(h)
  {
    r := h;
    while |r| > HistoryCap
      invariant |h| <= HistoryCap ==> r == h
      invariant |h| > HistoryCap ==> HistoryCap <= |r| <= |h| && r == h[..2] + h[|h| - (|r| - 2)..]
      decreases |r|
    {
      r := r[..2] + r[3..];
    }
  }

  /** The intro step of `chat`: on an empty history with a completed persona the system
      prompt is sent first; the intro reply is kept with it, and a failed intro call
      clears the history again. Otherwise the history is unchanged. */
  function IntroStep(h: seq<Entry>, persona: Option<Persona>, userName: string, intro: ApiOutcome): (r: seq<Entry>)
    ensures h != [] || persona.None? || !persona.value.setupCompleted ==> r == h
    ensures r != h ==> h == [] && ((intro.ApiReply? && |r| == 2 && r[1] == ModelEntry(intro.text)) || intro.ApiFailure?)
  {
    if h == [] && persona.Some? && persona.value.setupCompleted then
      match intro
      case ApiReply(t) => [SystemEntry(SystemPrompt(persona.value, userName)), ModelEntry(t)]
      case ApiFailure(_) => []
    else h
  }

  /** The reply text for a failed API call: the 401 and 429 messages, else the error text. */
  function ErrorText(message: Option<string>): (r: string)
    ensures r == InvalidKeyMessage <==> message.Some? && Contains(message.value, "401")
    ensures r == RateLimitMessage <==> message.Some? && !Contains(message.value, "401") && Contains(message.value, "429")
    ensures message.None? ==> r == GenericErrorPrefix + UnknownError
    ensures message.Some? && !Contains(message.value, "401") && !Contains(message.value, "429") ==>
              r == GenericErrorPrefix + message.value
  {
    if message.Some? && Contains(message.value, "401") then InvalidKeyMessage
    else if message.Some? && Contains(message.value, "429") then RateLimitMessage
    else
      var r := GenericErrorPrefix + (if message.Some? then message.value else UnknownError);
      assert r[0] != InvalidKeyMessage[0] && r[0] != RateLimitMessage[0];
      r
  }

  /** The shape of the API response that `extractReplyText` walks; `None` is a null. */
  datatype PartBody = PartBody(text: Option<string>)
  datatype ContentBody = ContentBody(parts: Option<seq<PartBody>>)
  datatype Candidate = Candidate(content: Option<ContentBody>)
  datatype ResponseBody = ResponseBody(candidates: Option<seq<Candidate>>)

  /** `extractReplyText`: the text of the first part of the first candidate (which may be
      null); a fixed text for a missing body, and another when the path is incomplete. */
  function ExtractReplyText(body: Option<ResponseBody>): (r: Option<string>)
    ensures body.None? ==> r == Some(NoResponseText)
    ensures r != Some(UnparsableText) && r != Some(NoResponseText) ==>
              && body.Some? && body.value.candidates.Some? && |body.value.candidates.value| > 0
              && var c := body.value.candidates.value[0];
                 c.content.Some? && c.content.value.parts.Some? && |c.content.value.parts.value| > 0
                 && r == c.content.value.parts.value[0].text
    ensures (&& body.Some? && body.value.candidates.Some? && |body.value.candidates.value| > 0
             && var c := body.value.candidates.value[0];
                c.content.Some? && c.content.value.parts.Some? && |c.content.value.parts.value| > 0) ==>
              r == body.value.candidates.value[0].content.value.parts.value[0].text
    ensures body.Some? && !(&& body.value.candidates.Some? && |body.value.candidates.value| > 0
                            && var c := body.value.candidates.value[0];
                               c.content.Some? && c.content.value.parts.Some? && |c.content.value.parts.value| > 0) ==>
              r == Some(UnparsableText)
  {
    if body.None? then Some(NoResponseText)
    else if body.value.candidates.Some? && |body.value.candidates.value| > 0 then
      var c := body.value.candidates.value[0];
      if c.content.Some? && c.content.value.parts.Some? && |c.content.value.parts.value| > 0 then
        c.content.value.parts.value[0].text
      else Some(UnparsableText)
    else Some(UnparsableText)
  }

  /** The response carrying one reply. */
  function ReplyBody(text: string): ResponseBody {
    ResponseBody(Some([Candidate(Some(ContentBody(Some([PartBody(Some(text))]))))]))
  }

  /** Extraction gives back the reply a response carries. */
  lemma ExtractReplyBody(text: string)
    ensures ExtractReplyText(Some(ReplyBody(text))) == Some(text)
  {
  }

  /** How one history entry is shown: entries without parts and system instructions are
      hidden; the role is "user" or "ai"; a null text shows as "". */
  function DisplayOf(e: Entry): (r: Option<DisplayEntry>)
    ensures r.Some? ==> r.value.role in {"user", "ai"} && !StartsWith(r.value.text, SystemMarker)
    ensures r.None? <==> e.parts == [] || (e.parts[0].Some? && StartsWith(e.parts[0].value, SystemMarker))
  {
    if e.parts == [] then None
    else if e.parts[0].Some? && StartsWith(e.parts[0].value, SystemMarker) then None
    else Some(DisplayEntry(if e.role == "user" then "user" else "ai",
                           if e.parts[0].Some? then e.parts[0].value else ""))
  }

  /** The mapping loop of `getHistory`. */
  function DisplayHistory(h: seq<Entry>): (r: seq<DisplayEntry>)
    ensures |r| <= |h|
    ensures forall i :: 0 <= i < |r| ==> r[i].role in {"user", "ai"} && !StartsWith(r[i].text, SystemMarker)
  {
    if h == [] then []
    else
      var d := DisplayOf(h[0]);
      (if d.Some? then [d.value] else []) + DisplayHistory(h[1..])
  }

  lemma {:induction false} DisplayHistoryAppend(a: seq<Entry>, b: seq<Entry>)
    ensures DisplayHistory(a + b) == DisplayHistory(a) + DisplayHistory(b)
  {
    if a == [] {
      assert a + b == b;
    } else {
      assert (a + b)[1..] == a[1..] + b;
      DisplayHistoryAppend(a[1..], b);
    }
  }

  /** A successful chat turn shows as the user's message followed by the AI's reply,
      unless one of them itself starts with the instruction marker. */
  lemma ChatTurnDisplay(h: seq<Entry>, message: string, reply: string)
    requires !StartsWith(message, SystemMarker) && !StartsWith(reply, SystemMarker)
    ensures DisplayHistory(h + [UserEntry(message), ModelEntry(reply)])
            == DisplayHistory(h) + [DisplayEntry("user", message), DisplayEntry("ai", reply)]
  {
    DisplayHistoryAppend(h, [UserEntry(message), ModelEntry(reply)]);
    DisplayHistoryAppend([UserEntry(message)], [ModelEntry(reply)]);
    assert [UserEntry(message)][1..] == [];
    assert [ModelEntry(reply)][1..] == [];
  }

  /** The system instruction never shows; the intro does. */
  lemma SystemEntryHidden(prompt: string, intro: string)
    requires !StartsWith(intro, SystemMarker)
    ensures DisplayHistory([SystemEntry(prompt), ModelEntry(intro)]) == [DisplayEntry("ai", intro)]
  {
    var h := [SystemEntry(prompt), ModelEntry(intro)];
    assert DisplayOf(h[0]).None?;
    assert DisplayOf(ModelEntry(intro)) == Some(DisplayEntry("ai", intro));
    assert h[1..] == [ModelEntry(intro)];
    assert h[1..][1..] == [];
    assert DisplayHistory([ModelEntry(intro)]) == [DisplayEntry("ai", intro)] + DisplayHistory([]);
  }

  /** The history after a run of successful chat turns, each a message and its reply. */
  function AfterTurns(h: seq<Entry>, turns: seq<(string, string)>): seq<Entry>
    decreases |turns|
  {
    if turns == [] then h
    else AfterTurns(Trimmed(h + [UserEntry(turns[0].0), ModelEntry(turns[0].1)]), turns[1..])
  }

  /** However many turns follow, the history stays within 22 entries and its first two
      entries (the system prompt and the intro, when there was one) are never trimmed. */
  lemma {:induction false} OpeningSurvivesTurns(h: seq<Entry>, turns: seq<(string, string)>)
    requires |h| <= HistoryCap
    ensures |AfterTurns(h, turns)| <= HistoryCap
    ensures |h| >= KeptOpening ==>
              |AfterTurns(h, turns)| >= KeptOpening && AfterTurns(h, turns)[..KeptOpening] == h[..KeptOpening]
    decreases |turns|
  {
    if turns != [] {
      var next := h + [UserEntry(turns[0].0), ModelEntry(turns[0].1)];
      if |h| >= KeptOpening {
        assert next[..KeptOpening] == h[..KeptOpening];
      }
      OpeningSurvivesTurns(Trimmed(next), turns[1..]);
    }
  }

  /** The intro step on an empty history: the system prompt is added and sent; the
      intro reply is kept, or the history cleared when the call fails. */
  method Introduce(p: Persona, userName: string, intro: ApiOutcome) returns (history: seq<Entry>)
    requires p.setupCompleted
    ensures history == IntroStep([], Some(p), userName, intro)
    ensures intro.ApiReply? ==> |history| == 2 && DisplayOf(history[0]).None?
  {
    var system := SystemEntry(SystemPrompt(p, userName));
    history := [system];
    match intro {
      case ApiReply(t) =>
        history := history + [ModelEntry(t)];
        PairOf(system, ModelEntry(t));
      case ApiFailure(_) => history := [];
    }
  }

  lemma PairOf(a: Entry, b: Entry)
    ensures [a] + [b] == [a, b]
  {
  }

  /** The reply step: the message is appended and sent; a reply is appended and the
      history trimmed, a failure takes the message off again. */
  method ReplyTurn(h: seq<Entry>, message: string, outcome: ApiOutcome) returns (history: seq<Entry>, reply: string)
    ensures outcome.ApiReply? ==> reply == outcome.text && history == Trimmed(h + [UserEntry(message), ModelEntry(outcome.text)])
    ensures outcome.ApiFailure? ==> reply == ErrorText(outcome.message) && history == h
  {
    history := h + [UserEntry(message)];
    match outcome {
      case ApiReply(t) =>
        history := history + [ModelEntry(t)];
        assert history == h + [UserEntry(message), ModelEntry(t)];
        history := TrimHistory(history);
        reply := t;
      case ApiFailure(m) =>
        history := history[..|history| - 1];
        reply := ErrorText(m);
    }
  }

  class GeminiService {
    const apiKey: Option<string>
    var conversationHistory: map<UserId, seq<Entry>>

    constructor (apiKey: Option<string>)
      ensures this.apiKey == apiKey && conversationHistory == map[]
    {
      this.apiKey := apiKey;
      conversationHistory := map[];
    }

    /** `isConfigured`: a non-null, non-empty key. */
    predicate IsConfigured()
      reads this
    {
      apiKey.Some? && apiKey.value != ""
    }

    function HistoryOf(userId: UserId): (r: seq<Entry>)
      reads this
      ensures userId !in conversationHistory ==> r == []
    {
      if userId in conversationHistory then conversationHistory[userId] else []
    }

    /** `chat`: without a key, the setup message and no change. Otherwise the intro step
        runs, the user's message is appended and the reply call made: on success the reply
        is appended, the history trimmed and the reply returned; on failure the message is
        taken off again and the error text returned. Only this user's history changes. */
    method Chat(userId: UserId, message: string, persona: Option<Persona>, displayName: Option<string>,
                username: string, intro: ApiOutcome, outcome: ApiOutcome) returns (reply: string)
      modifies this
      ensures !IsConfigured() ==> reply == NotConfiguredMessage && conversationHistory == old(conversationHistory)
      ensures IsConfigured() ==>
                var h1 := IntroStep(old(HistoryOf(userId)), persona, ChatUserName(displayName, username), intro);
                && userId in conversationHistory
                && conversationHistory == old(conversationHistory)[userId := conversationHistory[userId]]
                && (outcome.ApiReply? ==>
                      reply == outcome.text
                      && conversationHistory[userId] == Trimmed(h1 + [UserEntry(message), ModelEntry(outcome.text)]))
                && (outcome.ApiFailure? ==> reply == ErrorText(outcome.message) && conversationHistory[userId] == h1)
    {
      if !IsConfigured() {
        return NotConfiguredMessage;
      }
      var userName := ChatUserName(displayName, username);
      var history := HistoryOf(userId);
      if history == [] && persona.Some? && persona.value.setupCompleted {
        history := Introduce(persona.value, userName, intro);
      }
      history, reply := ReplyTurn(history, message, outcome);
      conversationHistory := conversationHistory[userId := history];
    }

    /** `clearHistory`: the user's history is dropped. */
    method ClearHistory(userId: UserId)
      modifies this
      ensures conversationHistory == old(conversationHistory) - {userId}
      ensures GetHistory(userId) == []
    {
      conversationHistory := conversationHistory - {userId};
    }

    /** `getHistory`: the display view of the user's history, empty when there is none. */
    function GetHistory(userId: UserId): (r: seq<DisplayEntry>)
      reads this
      ensures userId !in conversationHistory ==> r == []
      ensures |r| <= |HistoryOf(userId)|
    {
      DisplayHistory(HistoryOf(userId))
    }
  }
}

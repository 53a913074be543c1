/**
 * The AI recipe service (src/service/recipe_service.py): the local-model
 * call with its fallback to the cloud API, the extraction of the reply
 * text, the search for a "```json" fenced block, the provider tag, the
 * current-user check and the validation of a recipe request.
 *
 * The network is a function `server` from the request made to its outcome,
 * and every run records the requests it made, so the fallback rules can be
 * stated about what was sent. `json.loads` is the parameter `parse`.
 */
module RecipeService {
  import opened Wrappers
  import opened PyStr
  import opened PyJson
  import opened Errors

  // ---------------------------------------------------------------------
  // The regular expression  ```json\s*([\s\S]+?)\s*```  under re.search
  // ---------------------------------------------------------------------

  const Opener: string := "```json"
  const Fence: string := "```"

  /** The end of the whitespace run that starts at `j`. */
  function WsEnd(s: string, j: nat): (k: nat)
    requires j <= |s|
    ensures j <= k <= |s| && AllSpace(s[j..k])
    ensures k < |s| ==> !IsSpace(s[k])
    decreases |s| - j
  {
    if j < |s| && IsSpace(s[j]) then
      var k := WsEnd(s, j + 1);
      assert s[j..k] == [s[j]] + s[j + 1..k];
      k
    else j
  }

  /** The tail `\s*```` matches at `j`. A fence is never whitespace, so the greedy `\s*` can only succeed by taking the whole run. */
  predicate ClosesAt(s: string, j: nat)
    requires j <= |s|
  {
    OccursAt(s, Fence, WsEnd(s, j))
  }

  /** The lazy group `([\s\S]+?)`: the first end position at or after `j` where the tail matches. */
  function FirstClose(s: string, j: nat): (r: Option<nat>)
    requires j <= |s|
    ensures r.Some? ==> j <= r.value <= |s| && ClosesAt(s, r.value)
    ensures r.Some? ==> forall k :: j <= k < r.value ==> !ClosesAt(s, k)
    ensures r.None? ==> forall k :: j <= k <= |s| ==> !ClosesAt(s, k)
    decreases |s| - j
  {
    if ClosesAt(s, j) then Some(j)
    else if j == |s| then None
    else FirstClose(s, j + 1)
  }

  /** The captured group, as the slice `s[start..end]`. */
  datatype Group = Group(start: nat, end: nat)

  /** A match of the whole pattern that starts at `p` and captures `s[g..j]`. */
  predicate MatchShape(s: string, p: nat, g: nat, j: nat) {
    && OccursAt(s, Opener, p)
    && p + |Opener| <= g < j <= |s|
    && AllSpace(s[p + |Opener|..g])
    && ClosesAt(s, j)
  }

  /** Backtracking over the leading `\s*`: group starts `g`, `g - 1`, ..., `q`, each with the shortest group. */
  function GroupFrom(s: string, q: nat, g: nat): (r: Option<Group>)
    requires q <= g <= |s|
    ensures r.Some? ==> q <= r.value.start <= g && r.value.start < r.value.end <= |s| && ClosesAt(s, r.value.end)
    ensures r.Some? ==> forall k :: r.value.start < k < r.value.end ==> !ClosesAt(s, k)
    ensures r.None? ==> forall k :: q < k <= |s| ==> !ClosesAt(s, k)
    decreases g - q
  {
    var close := if g < |s| then FirstClose(s, g + 1) else None;
    if close.Some? then Some(Group(g, close.value))
    else if g == q then None
    else GroupFrom(s, q, g - 1)
  }

  /** The pattern tried at one start position `p` where the opener occurs. */
  function MatchAt(s: string, p: nat): (r: Option<Group>)
    requires OccursAt(s, Opener, p)
    ensures r.Some? ==> MatchShape(s, p, r.value.start, r.value.end)
    ensures r.None? ==> forall g: nat, j: nat :: !MatchShape(s, p, g, j)
  {
    var q := p + |Opener|;
    var e := WsEnd(s, q);
    var r := GroupFrom(s, q, e);
    if r.Some? then
      assert AllSpace(s[q..r.value.start]) by { assert s[q..r.value.start] == s[q..e][..r.value.start - q]; }
      r
    else r
  }

  /** `re.search`: the first start position, from `p` on, at which the pattern matches. */
  function Search(s: string, p: nat): (r: Option<Group>)
    requires p <= |s|
    ensures r.Some? ==> exists p' :: p <= p' <= |s| && MatchShape(s, p', r.value.start, r.value.end)
    ensures r.None? ==> forall p': nat, g: nat, j: nat :: p <= p' ==> !MatchShape(s, p', g, j)
    decreases |s| - p
  {
    if OccursAt(s, Opener, p) && MatchAt(s, p).Some? then MatchAt(s, p)
    else if p == |s| then None
    else Search(s, p + 1)
  }

  /** The text handed to `json.loads`: the stripped group when the text holds a "```json" block, else the whole text (lines 94-97 and 153-155). */
  function JsonPayload(text: string): (r: string)
    ensures Search(text, 0).None? ==> r == text
    ensures Search(text, 0).Some? ==> exists p: nat, g: nat, j: nat :: MatchShape(text, p, g, j) && r == Strip(text[g..j])
  {
    match Search(text, 0)
    case None => text
    case Some(grp) => Strip(text[grp.start..grp.end])
  }

  /** Text without the opener is parsed as a whole. */
  lemma NoFenceMeansWholeText(text: string)
    requires !Contains(text, Opener)
    ensures JsonPayload(text) == text
  {
  }

  /** No end position strictly inside a backquote-free run that ends in a non-space closes the group. */
  lemma NoCloseInside(s: string, g: nat, j: nat)
    requires g < j <= |s| && !IsSpace(s[j - 1])
    requires forall k :: g <= k < j ==> s[k] != '`'
    ensures forall k :: g < k < j ==> !ClosesAt(s, k)
  {
    forall k | g < k < j ensures !ClosesAt(s, k) {
      var w := WsEnd(s, k);
    }
  }

  /** When the opener starts the text, the whitespace after it ends at `g`, and `s[g..j]` is a backquote-free
      run ending in a non-space that the tail closes, `re.search` captures exactly `s[g..j]`. */
  lemma SearchCaptures(s: string, g: nat, j: nat)
    requires OccursAt(s, Opener, 0) && |Opener| <= g < j <= |s|
    requires WsEnd(s, |Opener|) == g && ClosesAt(s, j) && !IsSpace(s[j - 1])
    requires forall k :: g <= k < j ==> s[k] != '`'
    ensures Search(s, 0) == Some(Group(g, j))
  {
    NoCloseInside(s, g, j);
    FirstCloseIsLeast(s, g + 1, j);
    assert GroupFrom(s, |Opener|, g) == Some(Group(g, j));
    assert MatchAt(s, 0) == Some(Group(g, j));
  }

  /** The layout of a one-block text, as the requires of `FencedBlockPayload` state it. */
  predicate OneBlock(s: string, g: nat, j: nat, f: nat) {
    && OccursAt(s, Opener, 0) && |Opener| <= g < j <= f
    && OccursAt(s, Fence, f)
    && AllSpace(s[|Opener|..g]) && AllSpace(s[j..f])
    && !IsSpace(s[g]) && !IsSpace(s[j - 1])
    && (forall k :: g <= k < j ==> s[k] != '`')
  }

  /** In a one-block text `re.search` captures the body, and the payload is that capture stripped. */
  lemma OneBlockSearch(s: string, g: nat, j: nat, f: nat)
    requires OneBlock(s, g, j, f)
    ensures j <= |s| && Search(s, 0) == Some(Group(g, j))
    ensures JsonPayload(s) == Strip(s[g..j])
  {
    assert s[f] == Fence[0];
    WsEndAcross(s, |Opener|, g);
    WsEndAcross(s, j, f);
    SearchCaptures(s, g, j);
    PayloadOfSearch(s, g, j);
  }

  /** A slice that starts and ends with a non-space is its own strip. */
  lemma SliceUnstripped(s: string, g: nat, j: nat)
    requires g < j <= |s| && !IsSpace(s[g]) && !IsSpace(s[j - 1])
    ensures Strip(s[g..j]) == s[g..j]
  {
    var body := s[g..j];
    assert body[0] == s[g];
    assert body[j - g - 1] == s[j - 1];
    StripUnchanged(body);
  }

  /**
   * A text made of the opener, whitespace up to `g`, a body `s[g..j]` that
   * starts and ends with a non-space and holds no backquote, whitespace up to
   * `f` and a closing fence yields exactly the body, whatever follows.
   */
  lemma FencedBlockPayload(s: string, g: nat, j: nat, f: nat)
    requires OneBlock(s, g, j, f)
    ensures JsonPayload(s) == s[g..j]
  {
    OneBlockSearch(s, g, j, f);
    SliceUnstripped(s, g, j);
  }

  /** The payload is the stripped capture of `re.search`. */
  lemma PayloadOfSearch(s: string, g: nat, j: nat)
    requires Search(s, 0) == Some(Group(g, j))
    ensures g <= j <= |s| && JsonPayload(s) == Strip(s[g..j])
  {
  }

  /** Over a whitespace run `s[j..k]` followed by a non-space, the run end is `k`. */
  lemma {:induction false} WsEndAcross(s: string, j: nat, k: nat)
    requires j <= k < |s| && AllSpace(s[j..k]) && !IsSpace(s[k])
    ensures WsEnd(s, j) == k
    decreases k - j
  {
    if j < k {
      assert s[j..k][0] == s[j];
      assert s[j + 1..k] == s[j..k][1..];
      WsEndAcross(s, j + 1, k);
    }
  }

  lemma FirstCloseIsLeast(s: string, j: nat, m: nat)
    requires j <= m <= |s| && ClosesAt(s, m)
    requires forall k :: j <= k < m ==> !ClosesAt(s, k)
    ensures FirstClose(s, j) == Some(m)
  {
  }

  lemma StripUnchanged(t: string)
    requires t != [] && !IsSpace(t[0]) && !IsSpace(t[|t| - 1])
    ensures Strip(t) == t
  {
    assert LStrip(t) == t;
    assert RStrip(t) == t;
  }

  // ---------------------------------------------------------------------
  // Reply text, parsing and the provider tag
  // ---------------------------------------------------------------------

  const ProviderKey: string := "_ai_provider"

  /** Lines 104-108 and 162-166: a decoded object gets the provider only when it has none (`setdefault`); anything else is wrapped. */
  function Tag(parsed: Json, provider: string): (r: Json)
    ensures r.JObj? && ProviderKey in r.fields
    ensures parsed.JObj? && ProviderKey in parsed.fields ==> r == parsed
    ensures parsed.JObj? && ProviderKey !in parsed.fields ==>
      r.fields == parsed.fields[ProviderKey := JStr(provider)]
    ensures !parsed.JObj? ==>
      r.fields.Keys == {ProviderKey, "data"} && r.fields[ProviderKey] == JStr(provider) && r.fields["data"] == parsed
  {
    match parsed
    case JObj(fields) =>
      if ProviderKey in fields then parsed else JObj(fields[ProviderKey := JStr(provider)])
    case _ => JObj(map[ProviderKey := JStr(provider), "data" := parsed])
  }

  /** Tagging twice with any provider changes nothing the second time. */
  lemma TagIdempotent(parsed: Json, p1: string, p2: string)
    ensures Tag(Tag(parsed, p1), p2) == Tag(parsed, p1)
  {
  }

  /** A Python runtime error while walking the decoded reply, with the class name and the text `str(exc)` gives. */
  function Crash(e: AccessError): (r: Exc)
    ensures r.Builtin?
    ensures e.AttributeError? ==> r == MissingAttribute(e.owner, e.attr)
    ensures e.IndexError? ==> r == Builtin("IndexError", e.kind + " index out of range")
    ensures e.TypeError? ==> r == Builtin("TypeError", "'" + e.owner + "' object is not subscriptable")
    ensures e.KeyError? ==> r == Builtin("KeyError", e.key)
  {
    match e
    case AttributeError(owner, attr) => MissingAttribute(owner, attr)
    case IndexError(kind) => Builtin("IndexError", kind + " index out of range")
    case TypeError(owner) => Builtin("TypeError", "'" + owner + "' object is not subscriptable")
    case KeyError(key) => Builtin("KeyError", key)
  }

  /** `(x or "").strip()`-style access to a string field: a non-string has no `strip`. */
  function StripField(x: Json): (r: Result<string, Exc>)
    ensures x.JStr? <==> r.Ok?
    ensures x.JStr? ==> r.value == Strip(x.s)
  {
    if x.JStr? then Ok(Strip(x.s)) else Err(MissingAttribute(TypeName(x), "strip"))
  }

  /** A decoded reply that is not a dict fails on its first `.get`, and the global handler answers 500 with Python's message. */
  lemma NonDictReplyCrashes(data: Json)
    requires !data.JObj?
    ensures OllamaText(data) == Err(MissingAttribute(TypeName(data), "get"))
    ensures ChoicesText(data) == Err(MissingAttribute(TypeName(data), "get"))
    ensures Respond(OllamaText(data).error) == Some(Response(500, CodeAndDetail("UNHANDLED_ERROR",
      Pair(UnhandledDetail, "'" + TypeName(data) + "' object has no attribute 'get'"))))
  {
    var e := MissingAttribute(TypeName(data), "get");
    assert Str(e) == "'" + TypeName(data) + "' object has no attribute 'get'";
    assert Respond(e) == Some(GlobalHandler(OtherExc(e)));
  }

  /** An empty `choices` list fails on `[0]` with Python's `IndexError` text. */
  lemma EmptyChoicesOutOfRange(data: Json)
    requires data.JObj? && "choices" in data.fields && data.fields["choices"] == JArr([])
    ensures ChoicesText(data) == Err(Builtin("IndexError", "list index out of range"))
  {
    assert First(JArr([])) == Err(IndexError("list"));
    assert "list" + " index out of range" == "list index out of range";
  }

  /** `data.get("choices", [{}])[0].get("message", {}).get("content", "").strip()`. */
  function ChoicesText(data: Json): (r: Result<string, Exc>)
    ensures r.Ok? <==>
      && data.JObj?
      && (if "choices" in data.fields then
            && data.fields["choices"].JArr? && data.fields["choices"].items != []
            && ChoiceContent(data.fields["choices"].items[0]).Some?
          else true)
    ensures r.Ok? && "choices" !in data.fields ==> r.value == ""
    ensures r.Ok? && "choices" in data.fields ==>
      r.value == Strip(ChoiceContent(data.fields["choices"].items[0]).value)
    ensures r.Err? ==> r.error.Builtin?
  {
    match Get(data, "choices", JArr([JObj(map[])]))
    case Err(e) => Err(Crash(e))
    case Ok(choices) =>
      match First(choices)
      case Err(e) => Err(Crash(e))
      case Ok(choice) =>
        assert !("choices" in data.fields) ==> ChoiceContent(choice) == Some("");
        ChoiceText(choice)
  }

  /** `choice.get("message", {}).get("content", "").strip()` for one element of `choices`. */
  function ChoiceText(choice: Json): (r: Result<string, Exc>)
    ensures ChoiceContent(choice).Some? ==> r == Ok(Strip(ChoiceContent(choice).value))
    ensures ChoiceContent(choice).None? ==> r.Err? && r.error.Builtin? && r.error.name == "AttributeError"
    ensures !choice.JObj? ==> r == Err(MissingAttribute(TypeName(choice), "get"))
  {
    match Get(choice, "message", JObj(map[]))
    case Err(e) => Err(Crash(e))
    case Ok(message) =>
      match Get(message, "content", JStr(""))
      case Err(e) => Err(Crash(e))
      case Ok(content) => StripField(content)
  }

  /** The string at `choice["message"]["content"]` (with the `get` defaults), when every step is a dict and the value is a string. */
  function ChoiceContent(choice: Json): (r: Option<string>)
    ensures r.Some? ==> choice.JObj?
    ensures choice.JObj? && "message" !in choice.fields ==> r == Some("")
    ensures r.Some? && "message" in choice.fields && choice.fields["message"].JObj? && "content" in choice.fields["message"].fields ==>
      choice.fields["message"].fields["content"] == JStr(r.value)
  {
    if !choice.JObj? then None
    else
      var message := if "message" in choice.fields then choice.fields["message"] else JObj(map[]);
      if !message.JObj? then None
      else
        var content := if "content" in message.fields then message.fields["content"] else JStr("");
        if content.JStr? then Some(content.s) else None
  }

  /** Lines 80-89: the stripped `message.content`, or, when that is empty, the stripped `choices[0].message.content`. */
  function OllamaText(data: Json): (r: Result<string, Exc>)
    ensures !data.JObj? ==> r.Err?
    ensures data.JObj? && MessageContent(data).Some? && Strip(MessageContent(data).value) != [] ==>
      r == Ok(Strip(MessageContent(data).value))
    ensures data.JObj? && MessageContent(data).Some? && Strip(MessageContent(data).value) == [] ==> r == ChoicesText(data)
    ensures data.JObj? && MessageContent(data).None? ==> r.Err?
    ensures r.Err? ==> r.error.Builtin?
  {
    match Get(data, "message", JObj(map[]))
    case Err(e) => Err(Crash(e))
    case Ok(message) =>
      match Get(message, "content", JNull)
      case Err(e) => Err(Crash(e))
      case Ok(content) =>
        var first := if Truthy(content) then StripField(content) else Ok("");
        if first.Err? then first
        else if first.value != [] then first
        else ChoicesText(data)
  }

  /** `message.get("content") or ""` as a string, when `message` is a dict and the content is falsy or a string. */
  function MessageContent(data: Json): (r: Option<string>)
    requires data.JObj?
    ensures "message" !in data.fields ==> r == Some("")
    ensures r.Some? && r.value != [] ==>
      && "message" in data.fields && data.fields["message"].JObj? && "content" in data.fields["message"].fields
      && data.fields["message"].fields["content"] == JStr(r.value)
  {
    var message := if "message" in data.fields then data.fields["message"] else JObj(map[]);
    if !message.JObj? then None
    else
      var content := if "content" in message.fields then message.fields["content"] else JNull;
      if !Truthy(content) then Some("")
      else if content.JStr? then Some(content.s)
      else None
  }

  // ---------------------------------------------------------------------
  // The two providers
  // ---------------------------------------------------------------------

  /** An HTTP request the service makes. */
  datatype Call =
    | ProbeTags(url: string)
    | OllamaChat(url: string, model: string, prompt: string, numPredict: int)
    | OpenAIChat(url: string, apiKey: string, model: string, prompt: string, maxTokens: int)

  /** What a request comes back with: an `httpx.RequestError` (connection failure, timeout, ...) or a reply. */
  datatype Attempt = RequestError(message: string) | Reply(status: int, text: string)

  /** The service's settings: the local endpoint and model, and the cloud key ("" when unset). */
  datatype AiConfig = AiConfig(ollamaBaseUrl: string, modelName: string, openaiApiKey: string)

  const NumPredict: int := 1000
  const OpenAIModel: string := "gpt-4o-mini"
  const OpenAIUrl: string := "https://api.openai.com/v1/chat/completions"

  /** The requests a call made, in order, and what it returned or raised. */
  datatype Run = Run(calls: seq<Call>, result: Result<Json, Exc>)

  function AIServiceError(detail: string): Exc {
    External(AIService, Some(detail))
  }

  function AIJsonDecodeError(detail: string): Exc {
    External(AIJsonDecode, Some(detail))
  }

  const AINullResponseError: Exc := External(AINullResponse, None)

  /** The exceptions a provider call can end in: the three AI exceptions, or a Python error from reading a reply of the wrong shape.
      An `InvalidAIRequestException` is never among them. */
  predicate AIFailure(e: Exc) {
    e.Builtin? || (e.External? && e.ext in {AIService, AIJsonDecode, AINullResponse})
  }

  const MissingKeyDetail: string := "OpenAI API 키가 설정되지 않았습니다(OPENAI_API_KEY)."

  /** `_call_openai` (lines 110-166). */
  function CallOpenAI(cfg: AiConfig, prompt: string, server: Call -> Attempt, parse: string -> Result<Json, string>): (r: Run)
    ensures cfg.openaiApiKey == [] ==> r == Run([], Err(AIServiceError(MissingKeyDetail)))
    ensures cfg.openaiApiKey != [] ==> r.calls == [OpenAIChat(OpenAIUrl, cfg.openaiApiKey, OpenAIModel, prompt, NumPredict)]
    ensures cfg.openaiApiKey != [] ==> r.result == OpenAIReply(server(r.calls[0]), parse)
    ensures r.result.Ok? ==> r.result.value.JObj? && ProviderKey in r.result.value.fields
    ensures r.result.Err? ==> AIFailure(r.result.error)
  {
    if cfg.openaiApiKey == [] then Run([], Err(AIServiceError(MissingKeyDetail)))
    else
      var call := OpenAIChat(OpenAIUrl, cfg.openaiApiKey, OpenAIModel, prompt, NumPredict);
      Run([call], OpenAIReply(server(call), parse))
  }

  /** Lines 132-166: what the cloud reply becomes. */
  function OpenAIReply(a: Attempt, parse: string -> Result<Json, string>): (r: Result<Json, Exc>)
    ensures a.RequestError? ==> r == Err(AIServiceError("OpenAI 네트워크 오류: " + a.message))
    ensures a.Reply? && a.status != 200 ==>
      r == Err(AIServiceError("OpenAI 호출 실패: " + IntToDecimal(a.status) + " - " + a.text))
    ensures r.Ok? <==>
      && a.Reply? && a.status == 200 && parse(a.text).Ok?
      && ChoicesText(parse(a.text).value).Ok? && ChoicesText(parse(a.text).value).value != []
      && parse(JsonPayload(ChoicesText(parse(a.text).value).value)).Ok?
    ensures r.Ok? ==> r.value == Tag(parse(JsonPayload(ChoicesText(parse(a.text).value).value)).value, "openai")
    ensures r.Ok? ==> r.value.JObj? && ProviderKey in r.value.fields
    ensures r.Err? ==> AIFailure(r.error)
  {
    match a
    case RequestError(m) => Err(AIServiceError("OpenAI 네트워크 오류: " + m))
    case Reply(status, text) =>
      if status != 200 then Err(AIServiceError("OpenAI 호출 실패: " + IntToDecimal(status) + " - " + text))
      else
        match parse(text)
        case Err(m) => Err(AIJsonDecodeError("OpenAI 응답 JSON 디코드 실패: " + m))
        case Ok(data) =>
          match ChoicesText(data)
          case Err(e) => Err(e)
          case Ok(responseText) =>
            if responseText == [] then Err(AINullResponseError)
            else
              var payload := JsonPayload(responseText);
              match parse(payload)
              case Err(_) => Err(AIJsonDecodeError("OpenAI 응답 파싱 실패: " + payload))
              case Ok(parsed) => Ok(Tag(parsed, "openai"))
  }

  /** `_call_ollama` (lines 41-108), falling back to `_call_openai` with the same prompt. */
  function CallOllama(cfg: AiConfig, prompt: string, server: Call -> Attempt, parse: string -> Result<Json, string>): (r: Run)
    ensures r.result.Ok? ==> r.result.value.JObj? && ProviderKey in r.result.value.fields
    ensures r.result.Err? ==> AIFailure(r.result.error)
  {
    if cfg.ollamaBaseUrl == [] || cfg.modelName == [] then CallOpenAI(cfg, prompt, server, parse)
    else
      var base := RStripChar(cfg.ollamaBaseUrl, '/');
      var probe := ProbeTags(base + "/api/tags");
      if server(probe).RequestError? then
        var fallback := CallOpenAI(cfg, prompt, server, parse);
        Run([probe] + fallback.calls, fallback.result)
      else
        var chat := OllamaChat(base + "/api/chat", cfg.modelName, prompt, NumPredict);
        match server(chat)
        case RequestError(_) =>
          var fallback := CallOpenAI(cfg, prompt, server, parse);
          Run([probe, chat] + fallback.calls, fallback.result)
        case Reply(status, text) =>
          Run([probe, chat], OllamaReply(status, text, parse))
  }

  /** Lines 72-108: what a local reply becomes. */
  function OllamaReply(status: int, text: string, parse: string -> Result<Json, string>): (r: Result<Json, Exc>)
    ensures status != 200 ==> r == Err(AIServiceError("Ollama 호출 실패: " + IntToDecimal(status) + " - " + text))
    ensures r.Ok? <==>
      && status == 200 && parse(text).Ok?
      && OllamaText(parse(text).value).Ok? && OllamaText(parse(text).value).value != []
      && parse(JsonPayload(OllamaText(parse(text).value).value)).Ok?
    ensures r.Ok? ==> r.value == Tag(parse(JsonPayload(OllamaText(parse(text).value).value)).value, "ollama")
    ensures r.Ok? ==> r.value.JObj? && ProviderKey in r.value.fields
    ensures r.Err? ==> AIFailure(r.error)
  {
    if status != 200 then Err(AIServiceError("Ollama 호출 실패: " + IntToDecimal(status) + " - " + text))
    else
      match parse(text)
      case Err(_) => Err(AIJsonDecodeError("Ollama 응답 JSON 디코드 실패: " + text))
      case Ok(data) =>
        match OllamaText(data)
        case Err(e) => Err(e)
        case Ok(responseText) =>
          if responseText == [] then Err(AINullResponseError)
          else
            match parse(JsonPayload(responseText))
            case Err(_) => Err(AIJsonDecodeError("응답 파싱 실패: " + responseText))
            case Ok(parsed) => Ok(Tag(parsed, "ollama"))
  }

  /** Whether a request goes to the local model. */
  predicate IsOllamaCall(c: Call) {
    c.ProbeTags? || c.OllamaChat?
  }

  /** Line 42: without a local endpoint or model the cloud path runs at once, with the same prompt, and the local model is never contacted. */
  lemma UnconfiguredOllamaUsesOpenAI(cfg: AiConfig, prompt: string, server: Call -> Attempt, parse: string -> Result<Json, string>)
    requires cfg.ollamaBaseUrl == [] || cfg.modelName == []
    ensures CallOllama(cfg, prompt, server, parse) == CallOpenAI(cfg, prompt, server, parse)
    ensures forall c :: c in CallOllama(cfg, prompt, server, parse).calls ==> !IsOllamaCall(c) && c.prompt == prompt
  {
  }

  /** Lines 48-52 and 66-70: a request error on the probe or on the chat request falls back to the cloud with the same prompt. */
  lemma RequestErrorFallsBack(cfg: AiConfig, prompt: string, server: Call -> Attempt, parse: string -> Result<Json, string>)
    requires cfg.ollamaBaseUrl != [] && cfg.modelName != []
    requires server(ProbeTags(RStripChar(cfg.ollamaBaseUrl, '/') + "/api/tags")).RequestError?
      || server(OllamaChat(RStripChar(cfg.ollamaBaseUrl, '/') + "/api/chat", cfg.modelName, prompt, NumPredict)).RequestError?
    ensures CallOllama(cfg, prompt, server, parse).result == CallOpenAI(cfg, prompt, server, parse).result
    ensures cfg.openaiApiKey != [] ==>
      var calls := CallOllama(cfg, prompt, server, parse).calls;
      |calls| >= 2 && calls[|calls| - 1] == OpenAIChat(OpenAIUrl, cfg.openaiApiKey, OpenAIModel, prompt, NumPredict)
    ensures cfg.openaiApiKey != [] ==>
      CallOllama(cfg, prompt, server, parse).result
        == OpenAIReply(server(OpenAIChat(OpenAIUrl, cfg.openaiApiKey, OpenAIModel, prompt, NumPredict)), parse)
  {
  }

  /** Lines 56-72: once the probe and the chat request both get a reply, that reply alone decides the result, and the cloud is never contacted. */
  lemma LocalReplyDecides(cfg: AiConfig, prompt: string, server: Call -> Attempt, parse: string -> Result<Json, string>)
    requires cfg.ollamaBaseUrl != [] && cfg.modelName != []
    requires server(ProbeTags(RStripChar(cfg.ollamaBaseUrl, '/') + "/api/tags")).Reply?
    requires server(OllamaChat(RStripChar(cfg.ollamaBaseUrl, '/') + "/api/chat", cfg.modelName, prompt, NumPredict)).Reply?
    ensures var a := server(OllamaChat(RStripChar(cfg.ollamaBaseUrl, '/') + "/api/chat", cfg.modelName, prompt, NumPredict));
      CallOllama(cfg, prompt, server, parse).result == OllamaReply(a.status, a.text, parse)
    ensures forall c :: c in CallOllama(cfg, prompt, server, parse).calls ==> IsOllamaCall(c)
  {
  }

  /** Line 72: a local reply with any status but 200 is an `AIServiceException` naming the status, and the cloud is not tried. */
  lemma Non200DoesNotFallBack(cfg: AiConfig, prompt: string, server: Call -> Attempt, parse: string -> Result<Json, string>)
    requires cfg.ollamaBaseUrl != [] && cfg.modelName != []
    requires server(ProbeTags(RStripChar(cfg.ollamaBaseUrl, '/') + "/api/tags")).Reply?
    requires var a := server(OllamaChat(RStripChar(cfg.ollamaBaseUrl, '/') + "/api/chat", cfg.modelName, prompt, NumPredict));
      a.Reply? && a.status != 200
    ensures var r := CallOllama(cfg, prompt, server, parse);
      && r.result.Err? && r.result.error.External? && r.result.error.ext == AIService
      && (forall c :: c in r.calls ==> IsOllamaCall(c))
  {
  }

  /** Lines 91-92 and 150-151: a reply whose text is empty after stripping raises `AINullResponseException`. */
  lemma EmptyTextIsNullResponse(status: int, text: string, parse: string -> Result<Json, string>)
    requires status == 200 && parse(text).Ok?
    requires OllamaText(parse(text).value) == Ok("")
    ensures OllamaReply(status, text, parse) == Err(AINullResponseError)
  {
  }

  /** Lines 99-102: a payload that does not parse raises `AIJsonDecodeException` with the reply text. */
  lemma UnparsableTextIsDecodeError(status: int, text: string, parse: string -> Result<Json, string>)
    requires status == 200 && parse(text).Ok?
    requires var t := OllamaText(parse(text).value); t.Ok? && t.value != [] && parse(JsonPayload(t.value)).Err?
    ensures OllamaReply(status, text, parse) == Err(AIJsonDecodeError("응답 파싱 실패: " + OllamaText(parse(text).value).value))
  {
  }

  /** The cloud error detail for a failing status contains that status in decimal (test_call_openai_http_error). */
  lemma OpenAIStatusInDetail(status: int, text: string, parse: string -> Result<Json, string>)
    requires status != 200
    ensures var r := OpenAIReply(Reply(status, text), parse);
      r.Err? && r.error.External? && r.error.detail.Some? && Contains(r.error.detail.value, IntToDecimal(status))
  {
    var d := "OpenAI 호출 실패: " + IntToDecimal(status) + " - " + text;
    var k := |"OpenAI 호출 실패: "|;
    assert d[k..k + |IntToDecimal(status)|] == IntToDecimal(status);
    assert OccursAt(d, IntToDecimal(status), k);
  }

  // ---------------------------------------------------------------------
  // Current user and request validation
  // ---------------------------------------------------------------------

  /** `get_current_user` (lines 28-39). */
  function GetCurrentUser<U>(lookup: UserLookup<U>): (r: Result<U, Exc>)
    ensures lookup.Raised? && lookup.e.Custom? && lookup.e.cls == UserClass(TokenExpired) ==> r == Err(lookup.e)
    ensures lookup.Raised? && !(lookup.e.Custom? && lookup.e.cls == UserClass(TokenExpired)) ==>
      r == Err(Custom(UserClass(TokenExpired), NewUserError(TokenExpired, Some("토큰 처리 중 오류: " + Str(lookup.e)))))
    ensures lookup.Returned? && lookup.user.None? ==> r == Err(RaiseUser(UserNotFound))
    ensures r.Err? ==> r.error.Custom? && r.error.cls in {UserClass(TokenExpired), UserClass(UserNotFound)}
    ensures r.Ok? <==> lookup.Returned? && lookup.user.Some?
    ensures r.Ok? ==> r.value == lookup.user.value
  {
    match lookup
    case Raised(e) =>
      if e.Custom? && e.cls == UserClass(TokenExpired) then Err(e)
      else Err(Custom(UserClass(TokenExpired), NewUserError(TokenExpired, Some("토큰 처리 중 오류: " + Str(e)))))
    case Returned(None) => Err(RaiseUser(UserNotFound))
    case Returned(Some(u)) => Ok(u)
  }

  const InvalidRequestDetail: string := "올바른 'food' 및 'use_ingredients' 값을 제공해야 합니다."

  const InvalidRequestError: Exc := External(InvalidAIRequest, Some(InvalidRequestDetail))

  /** Whether a run ended in an `InvalidAIRequestException`. */
  predicate RejectedAsInvalid(r: Run) {
    r.result.Err? && r.result.error.External? && r.result.error.ext == InvalidAIRequest
  }

  /** `get_food_recipe` (lines 175-183) as written: the request must name a truthy food, and `use_ingredients`,
      when present, must be a list; an absent `use_ingredients` is taken as `[]`. `buildPrompt` stands for the prompt builder. */
  function GetFoodRecipe(cfg: AiConfig, request: map<string, Json>, buildPrompt: (Json, Json) -> string,
                         server: Call -> Attempt, parse: string -> Result<Json, string>): (r: Run)
    ensures RejectedAsInvalid(r) <==>
      || "food" !in request || !Truthy(request["food"])
      || ("use_ingredients" in request && !request["use_ingredients"].JArr?)
    ensures RejectedAsInvalid(r) ==> r == Run([], Err(InvalidRequestError))
    ensures !RejectedAsInvalid(r) ==>
      var uses := if "use_ingredients" in request then request["use_ingredients"] else JArr([]);
      "food" in request && r == CallOllama(cfg, buildPrompt(request["food"], uses), server, parse)
  {
    var food := if "food" in request then request["food"] else JNull;
    var uses := if "use_ingredients" in request then request["use_ingredients"] else JArr([]);
    if !Truthy(food) || !uses.JArr? then Run([], Err(InvalidRequestError))
    else CallOllama(cfg, buildPrompt(food, uses), server, parse)
  }

  /** Line 177: a request with a truthy food and no `use_ingredients` goes to the model with an empty ingredient list. */
  lemma MissingUsesDefaultsToEmpty(cfg: AiConfig, request: map<string, Json>, buildPrompt: (Json, Json) -> string,
                                   server: Call -> Attempt, parse: string -> Result<Json, string>)
    requires "food" in request && Truthy(request["food"]) && "use_ingredients" !in request
    ensures GetFoodRecipe(cfg, request, buildPrompt, server, parse)
      == CallOllama(cfg, buildPrompt(request["food"], JArr([])), server, parse)
    ensures !RejectedAsInvalid(GetFoodRecipe(cfg, request, buildPrompt, server, parse))
  {
  }

  /** The request `{"food": "김치찌개"}`, which test_get_food_recipe_invalid_request expects to be refused. */
  function FoodOnlyRequest(): (m: map<string, Json>)
    ensures "food" in m && "use_ingredients" !in m && Truthy(m["food"])
  {
    map["food" := JStr("김치찌개")]
  }

  /** As written, a request naming only a food is not refused: whatever the providers answer, no `InvalidAIRequestException` comes back. */
  lemma FoodOnlyRequestAccepted(cfg: AiConfig, buildPrompt: (Json, Json) -> string,
                                server: Call -> Attempt, parse: string -> Result<Json, string>)
    ensures !RejectedAsInvalid(GetFoodRecipe(cfg, FoodOnlyRequest(), buildPrompt, server, parse))
  {
    MissingUsesDefaultsToEmpty(cfg, FoodOnlyRequest(), buildPrompt, server, parse);
  }

  /** `get_food_recipe` as its tests describe it: `use_ingredients` is required, so a request without it is refused
      before any provider is contacted; every other request is handled as written. */
  function GetFoodRecipeIntended(cfg: AiConfig, request: map<string, Json>, buildPrompt: (Json, Json) -> string,
                                 server: Call -> Attempt, parse: string -> Result<Json, string>): (r: Run)
    ensures RejectedAsInvalid(r) <==>
      || "food" !in request || !Truthy(request["food"])
      || "use_ingredients" !in request || !request["use_ingredients"].JArr?
    ensures RejectedAsInvalid(r) ==> r == Run([], Err(InvalidRequestError))
    ensures "use_ingredients" in request ==> r == GetFoodRecipe(cfg, request, buildPrompt, server, parse)
  {
    if "use_ingredients" !in request then Run([], Err(InvalidRequestError))
    else GetFoodRecipe(cfg, request, buildPrompt, server, parse)
  }

  /** The corrected request check refuses the request of test_get_food_recipe_invalid_request and contacts no provider. */
  lemma IntendedRefusesFoodOnly(cfg: AiConfig, buildPrompt: (Json, Json) -> string,
                                server: Call -> Attempt, parse: string -> Result<Json, string>)
    ensures var r := GetFoodRecipeIntended(cfg, FoodOnlyRequest(), buildPrompt, server, parse);
      RejectedAsInvalid(r) && r.calls == []
  {
  }
}

/**
 * What the two chat-completion clients (OpenAI and Groq) share: the shape
 * of a request, the content node a reply yields, the API-key guard, the
 * status check of `executeChat`, and the clamping of generated titles.
 *
 * The language model itself is a parameter: a function from the request to
 * the HTTP exchange it produces.
 */
module LlmCommon {
  import opened Wrappers
  import opened JavaStrings
  import opened ChatModel

  /**
   * The node at `choices[0].message.content`. Jackson's `path` yields a
   * missing node (whose text is "") when the reply has no content, and an
   * explicit JSON null only when the content is `null`.
   */
  datatype ContentNode = JsonNull | Missing | Value(text: string)

  /** `JsonNode.asText()`. */
  function AsText(n: ContentNode): string {
    match n
    case JsonNull => "null"
    case Missing => []
    case Value(t) => t
  }

  /**
   * One HTTP exchange with the completion endpoint: either a status code and
   * the content node of the parsed body, or a failure to send the request or
   * to parse the body.
   */
  datatype Exchange = Answered(status: int, content: ContentNode) | TransportFailed

  /** `executeChat`: the content node of a successful reply; any status of 400 or more throws. */
  function ExecuteChat(e: Exchange): (r: Option<ContentNode>)
    ensures r.Some? <==> e.Answered? && e.status < 400
    ensures r.Some? ==> r.value == e.content
  {
    match e
    case Answered(status, content) => if status >= 400 then None else Some(content)
    case TransportFailed => None
  }

  /** The fixed instructions the clients send; their wording is not modelled. */
  datatype Prompt =
    | RecommendationPrompt
    | GroqRecommendationPrompt
    | TitlePrompt
    | TicketPrompt
    | AccommodationPrompt
    | DocumentPrompt
    | ItineraryPrompt

  /**
   * A part of a multi-part user message: the fixed request to analyse an
   * upload (naming the file for other documents), a text, or an image URL.
   */
  datatype ContentPart =
    | IntroPart(kind: UploadKind, fileName: Option<string>)
    | TextPart(text: string)
    | ImagePart(url: string, detail: string)

  datatype ApiContent = Instruction(prompt: Prompt) | Text(text: Option<string>) | Parts(parts: seq<ContentPart>)

  /** One element of the request's `messages` array; a null role is sent as JSON null. */
  datatype ApiMessage = ApiMessage(role: Option<string>, content: ApiContent)

  type Request = seq<ApiMessage>

  /** The language model behind the endpoint. */
  type Llm = Request -> Exchange

  const SystemRole: string := "system"

  function SystemMessage(p: Prompt): ApiMessage {
    ApiMessage(Some(SystemRole), Instruction(p))
  }

  /**
   * How a client call ends: with a value, with `IllegalStateException`
   * (the API key is missing), or with the `RuntimeException` that wraps
   * every other failure.
   */
  datatype ServiceResult<T> = Returned(value: T) | KeyMissing | CallFailed

  /** `apiKey != null && !apiKey.isBlank()`. */
  predicate KeyConfigured(key: Option<string>) {
    key.Some? && !IsBlank(key.value)
  }

  /**
   * The reply used when the model sends no content. Its first word is kept
   * as a separate literal so that proofs can see the text is not blank.
   */
  const NoContentReply: string := "The " + "recommendation engine did not return any content."

  /**
   * A completion call whose reply text is `asText()` of the content node,
   * or `fallback` when the node is JSON null. The key is checked before
   * any request is built.
   */
  function CompleteText(key: Option<string>, llm: Llm, request: Request, fallback: string): (r: ServiceResult<string>)
    ensures r.KeyMissing? <==> !KeyConfigured(key)
    ensures r.CallFailed? <==> KeyConfigured(key) && ExecuteChat(llm(request)).None?
    ensures r.Returned? ==> var node := ExecuteChat(llm(request)).value;
                             r.value == if node.JsonNull? then fallback else AsText(node)
  {
    if !KeyConfigured(key) then KeyMissing
    else
      match ExecuteChat(llm(request))
      case None => CallFailed
      case Some(node) => Returned(if node.JsonNull? then fallback else AsText(node))
  }

  // ---------------------------------------------------------------------
  // Chat titles
  // ---------------------------------------------------------------------

  const DefaultTitle: string := "New travel chat"
  const TitleLimit: nat := 60

  /** What `generateTitle` promises its callers: a non-empty trimmed text of at most 60 characters. */
  predicate IsTitle(t: string) {
    t != [] && IsTrimmed(t) && |t| <= TitleLimit
  }

  function Min(a: int, b: int): int {
    if a <= b then a else b
  }

  /**
   * The post-processing of a generated title: JSON null gives the default
   * title; otherwise the text is trimmed, cut to 60 characters and trimmed
   * again, and an empty result gives the default title. A non-default title
   * is therefore the reply's trimmed text, cut at 60 characters or earlier,
   * with only trim characters dropped between the cut and the 60th.
   */
  function ClampTitle(node: ContentNode): (title: string)
    ensures IsTitle(title)
    ensures node.JsonNull? || AllTrimChars(AsText(node)) ==> title == DefaultTitle
    ensures !node.JsonNull? && !AllTrimChars(AsText(node)) ==>
              var t := Trim(AsText(node));
              StartsWith(t, title) && AllTrimChars(t[|title|..Min(|t|, TitleLimit)])
    ensures !node.JsonNull? && !AllTrimChars(AsText(node)) && |Trim(AsText(node))| <= TitleLimit ==>
              title == Trim(AsText(node))
  {
    assert IsTitle(DefaultTitle) by {
      assert DefaultTitle[0] == 'N' && DefaultTitle[|DefaultTitle| - 1] == 't';
    }
    if node.JsonNull? then DefaultTitle
    else
      var t := Trim(AsText(node));
      var title := if |t| > TitleLimit then Trim(t[..TitleLimit]) else t;
      if title == [] then DefaultTitle
      else if |t| > TitleLimit then
        TrimOfPrefix(t, TitleLimit);
        title
      else
        assert t[|t|..|t|] == [];
        title
  }

  /** Trimming the first `n` characters of a trimmed text cuts it at or before `n`. */
  lemma TrimOfPrefix(t: string, n: nat)
    requires IsTrimmed(t) && 0 < n <= |t|
    ensures var c := Trim(t[..n]);
            c != [] && |c| <= n && StartsWith(t, c) && AllTrimChars(t[|c|..n])
  {
    var p := t[..n];
    var c := Trim(p);
    assert !IsTrimChar(p[0]);
    NotAllTrim(p, 0);
    KeptBound(p, LeadingTrimCount(p), 0);
    assert c == p[..|c|];
    assert p[|c|..] == t[|c|..n];
  }

  /** A generated title comes out unchanged when clamped again. */
  lemma ClampTitleIdempotent(node: ContentNode)
    ensures ClampTitle(Value(ClampTitle(node))) == ClampTitle(node)
  {
    var x := ClampTitle(node);
    TrimmedIsFixedPoint(x);
    NotAllTrim(x, 0);
  }

  /**
   * The user message of the title request. `StringBuilder.append(null)`
   * writes "null"; the reply is added only when it is not blank.
   */
  function TitleRequestText(first: Option<string>, reply: Option<string>): string {
    "First user message: " + first.GetOr("null")
    + (if reply.Some? && !IsBlank(reply.value) then "\nAssistant reply: " + reply.value else "")
  }

  function TitleRequest(first: Option<string>, reply: Option<string>): Request {
    [SystemMessage(TitlePrompt), ApiMessage(Some("user"), Text(Some(TitleRequestText(first, reply))))]
  }

  /**
   * `generateTitle`, identical in both clients: the key guard, one request,
   * and the clamped reply.
   */
  function GenerateTitle(key: Option<string>, first: Option<string>, reply: Option<string>, llm: Llm)
    : (r: ServiceResult<string>)
    ensures r.KeyMissing? <==> !KeyConfigured(key)
    ensures r.CallFailed? <==> KeyConfigured(key) && ExecuteChat(llm(TitleRequest(first, reply))).None?
    ensures r.Returned? ==> IsTitle(r.value)
    ensures r.Returned? && ExecuteChat(llm(TitleRequest(first, reply))).value.JsonNull? ==> r.value == DefaultTitle
  {
    if !KeyConfigured(key) then KeyMissing
    else
      match ExecuteChat(llm(TitleRequest(first, reply)))
      case None => CallFailed
      case Some(node) => Returned(ClampTitle(node))
  }

  /** A title that was already short and trimmed is kept as the model returned it. */
  lemma ShortTitleKept(key: Option<string>, first: Option<string>, reply: Option<string>, llm: Llm, x: string)
    requires KeyConfigured(key)
    requires llm(TitleRequest(first, reply)) == Answered(200, Value(x))
    requires IsTitle(x)
    ensures GenerateTitle(key, first, reply, llm) == Returned(x)
  {
    TrimmedIsFixedPoint(x);
    NotAllTrim(x, 0);
  }
}

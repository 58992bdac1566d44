/** The request handler of the subtopic service
    (supabase/functions/generate-subtopics/index.ts, lines 8-111): answers a
    CORS preflight, checks the gateway credential, asks the AI gateway for
    subtopics, maps the gateway's failures to responses and parses its
    answer. The HTTP plumbing is not modelled: the request arrives as
    values, the gateway is a function from the outbound request to its
    reply, and `JSON.parse` is a function parameter. */
module GenerateSubtopics {
  import opened Wrappers
  import opened Text
  import opened JsonValues
  import opened SubtopicParser

  const RateLimitMessage: string := "Rate limit exceeded. Please try again later."
  const CreditsMessage: string := "AI credits depleted. Please add credits to continue."
  const GatewayErrorMessage: string := "AI gateway error"
  const MissingKeyMessage: string := "LOVABLE_API_KEY is not configured"
  const NoContentMessage: string := "No content in AI response"

  const Model: string := "google/gemini-2.5-flash"
  const SystemPrompt: string :=
    "You are a helpful educational assistant. Generate 8-10 relevant subtopics for the given subject. Return ONLY a JSON array of strings with subtopic names, no additional text or formatting."
  const UserPromptPrefix: string := "Generate 8-10 relevant subtopics for studying: "

  /** What `await req.json()` yields: the subject name, or the message of the
      error it throws on a malformed body. */
  datatype RequestBody = Unparsable(reason: string) | Body(subjectName: string)

  /** The chat-completion request sent to the gateway. */
  datatype ChatRequest = ChatRequest(bearer: string, model: string, system: string, user: string)

  /** The gateway's answer: either the call threw (the `fetch` rejected, or
      the success body was not JSON) with a message, or it replied with a
      status and, in `choices[0].message.content`, maybe some text. */
  datatype Upstream = Threw(message: string) | Reply(status: int, content: Option<string>)

  /** The handler's response: the preflight answer (no body), the subtopics,
      or an error message with its status. */
  datatype Response = Preflight | Subtopics(subtopics: Json) | Error(status: int, message: string)

  type Gateway = ChatRequest -> Upstream

  const CorsHeaders: seq<(string, string)> := [
    ("Access-Control-Allow-Origin", "*"),
    ("Access-Control-Allow-Headers", "authorization, x-client-info, apikey, content-type")
  ]

  /** The HTTP status a response carries (`new Response` defaults to 200). */
  function Status(r: Response): int {
    if r.Error? then r.status else 200
  }

  /** Every response carries the CORS headers; all but the preflight also
      declare a JSON body. */
  function Headers(r: Response): (h: seq<(string, string)>)
    ensures |h| >= |CorsHeaders| && h[..|CorsHeaders|] == CorsHeaders
    ensures |h| == |CorsHeaders| <==> r.Preflight?
  {
    if r.Preflight? then CorsHeaders else CorsHeaders + [("Content-Type", "application/json")]
  }

  /** `response.ok`: a status in the 200-299 range. */
  predicate IsOk(status: int) {
    200 <= status <= 299
  }

  /** `!LOVABLE_API_KEY`: an absent or empty credential. */
  predicate KeyMissing(apiKey: Option<string>) {
    apiKey.None? || apiKey.value == ""
  }

  /** `!content`: absent or empty text. */
  predicate ContentMissing(content: Option<string>) {
    content.None? || content.value == ""
  }

  /** The outbound request: the credential as bearer token, the fixed model
      and system instruction, and a user instruction ending in the subject
      name verbatim. */
  function OutboundRequest(apiKey: string, subjectName: string): (q: ChatRequest)
    ensures q.bearer == apiKey && q.model == Model && q.system == SystemPrompt
    ensures |q.user| >= |subjectName| && q.user[|q.user| - |subjectName|..] == subjectName
  {
    ChatRequest(apiKey, Model, SystemPrompt, UserPromptPrefix + subjectName)
  }

  /** How a non-ok gateway status becomes a response: 429 and 402 keep their
      status and get their own message, anything else is a 500. */
  function UpstreamFailure(status: int): (r: Response)
    requires !IsOk(status)
    ensures r.Error?
    ensures r.status == (if status == 429 || status == 402 then status else 500)
    ensures r.message == (if status == 429 then RateLimitMessage
                          else if status == 402 then CreditsMessage
                          else GatewayErrorMessage)
  {
    if status == 429 then Error(429, RateLimitMessage)
    else if status == 402 then Error(402, CreditsMessage)
    else Error(500, GatewayErrorMessage)
  }

  /** The `serve` handler. Every thrown error is caught at the outside and
      becomes a 500 carrying the error's message. */
  function Handle(verb: string, body: RequestBody, apiKey: Option<string>,
                  gateway: Gateway, parseJson: JsonParser): (r: Response)
    ensures r.Preflight? <==> verb == "OPTIONS"
    ensures r.Error? ==> r.status == 500 || r.status == 429 || r.status == 402
  {
    if verb == "OPTIONS" then Preflight
    else match body
      case Unparsable(reason) => Error(500, reason)
      case Body(subjectName) =>
        if KeyMissing(apiKey) then Error(500, MissingKeyMessage)
        else match gateway(OutboundRequest(apiKey.value, subjectName))
          case Threw(message) => Error(500, message)
          case Reply(status, content) =>
            if !IsOk(status) then UpstreamFailure(status)
            else if ContentMissing(content) then Error(500, NoContentMessage)
            else Subtopics(ParseSubtopics(content.value, parseJson))
  }

  /** The gateway reply a well-formed, credentialed, non-preflight request gets. */
  function ReplyTo(body: RequestBody, apiKey: Option<string>, gateway: Gateway): Upstream
    requires body.Body? && !KeyMissing(apiKey)
  {
    gateway(OutboundRequest(apiKey.value, body.subjectName))
  }

  /** A preflight is answered alone: whatever else the request holds and
      whatever the gateway or parser would do, the answer is the same. */
  lemma PreflightIgnoresEverything(body: RequestBody, body': RequestBody,
                                   apiKey: Option<string>, apiKey': Option<string>,
                                   gateway: Gateway, gateway': Gateway,
                                   parseJson: JsonParser, parseJson': JsonParser)
    ensures Handle("OPTIONS", body, apiKey, gateway, parseJson)
         == Handle("OPTIONS", body', apiKey', gateway', parseJson')
         == Preflight
    ensures Headers(Preflight) == CorsHeaders && Status(Preflight) == 200
  {
  }

  /** A missing credential gives a 500 naming it, and the gateway is never
      consulted: the response is the same whatever the gateway would do. */
  lemma MissingKeyNeverCallsGateway(verb: string, subjectName: string, apiKey: Option<string>,
                                    gateway: Gateway, gateway': Gateway,
                                    parseJson: JsonParser, parseJson': JsonParser)
    requires verb != "OPTIONS" && KeyMissing(apiKey)
    ensures Handle(verb, Body(subjectName), apiKey, gateway, parseJson)
         == Handle(verb, Body(subjectName), apiKey, gateway', parseJson')
         == Error(500, MissingKeyMessage)
  {
  }

  /** The gateway's failure statuses are classified in order (429, then 402,
      then any other non-ok status as a 500), and the reply's content and the
      parser play no part in it. */
  lemma UpstreamFailureIsClassified(verb: string, body: RequestBody, apiKey: Option<string>,
                                    gateway: Gateway, parseJson: JsonParser, parseJson': JsonParser)
    requires verb != "OPTIONS" && body.Body? && !KeyMissing(apiKey)
    requires ReplyTo(body, apiKey, gateway).Reply? && !IsOk(ReplyTo(body, apiKey, gateway).status)
    ensures var status := ReplyTo(body, apiKey, gateway).status;
      && Handle(verb, body, apiKey, gateway, parseJson) == Handle(verb, body, apiKey, gateway, parseJson')
      && (status == 429 ==> Handle(verb, body, apiKey, gateway, parseJson) == Error(429, RateLimitMessage))
      && (status == 402 ==> Handle(verb, body, apiKey, gateway, parseJson) == Error(402, CreditsMessage))
      && (status != 429 && status != 402 ==>
            Handle(verb, body, apiKey, gateway, parseJson) == Error(500, GatewayErrorMessage))
  {
  }

  /** An ok reply without content (absent, or the empty string) is a 500 and
      never an empty list of subtopics. */
  lemma MissingContentIsAnError(verb: string, body: RequestBody, apiKey: Option<string>,
                                gateway: Gateway, parseJson: JsonParser)
    requires verb != "OPTIONS" && body.Body? && !KeyMissing(apiKey)
    requires ReplyTo(body, apiKey, gateway).Reply? && IsOk(ReplyTo(body, apiKey, gateway).status)
    requires ContentMissing(ReplyTo(body, apiKey, gateway).content)
    ensures Handle(verb, body, apiKey, gateway, parseJson) == Error(500, NoContentMessage)
  {
  }

  /** Subtopics are returned exactly when the request got past the preflight,
      body and credential checks and the gateway answered ok with some text;
      they are then what the parser makes of that text. */
  lemma SubtopicsOnlyFromContent(verb: string, body: RequestBody, apiKey: Option<string>,
                                 gateway: Gateway, parseJson: JsonParser)
    ensures Handle(verb, body, apiKey, gateway, parseJson).Subtopics? <==>
      && verb != "OPTIONS" && body.Body? && !KeyMissing(apiKey)
      && ReplyTo(body, apiKey, gateway).Reply?
      && IsOk(ReplyTo(body, apiKey, gateway).status)
      && !ContentMissing(ReplyTo(body, apiKey, gateway).content)
    ensures Handle(verb, body, apiKey, gateway, parseJson).Subtopics? ==>
      Handle(verb, body, apiKey, gateway, parseJson).subtopics
        == ParseSubtopics(ReplyTo(body, apiKey, gateway).content.value, parseJson)
  {
  }

  /** A reply that is exactly a JSON array (the gateway followed the system
      instruction) is handed whole to `JSON.parse`, and what it parses to is
      returned unchanged. */
  lemma WholeArrayIsReturnedUnchanged(content: string, parseJson: JsonParser)
    requires |content| >= 2 && content[0] == '[' && content[|content| - 1] == ']'
    requires parseJson(content).Some?
    ensures ParseSubtopics(content, parseJson) == parseJson(content).value
  {
    assert "" + content + "" == content;
    SpanExcludesProse("", content, "");
  }
}

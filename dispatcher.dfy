/** The serverless handler behind /api/gemini: it checks the method, validates the
    action and prompt, checks that the API key is configured, picks a prompt
    template, calls the generative-language endpoint once and turns its reply into
    one JSON response. The environment read, the outbound call and the response
    writes are not performed here: the key and the upstream outcome are inputs, and
    the handler's answer is a value. */
module Dispatcher {
  import opened Js

  /** The fields of the request the handler reads: its method and the two body
      fields it destructures. */
  datatype Request = Request(httpMethod: string, promptText: JsValue, actionType: JsValue)

  /** What the `details` field of an upstream error carries: the default error
      object built for status n, or the upstream body as parsed. */
  datatype Details = DefaultDetails(status: nat) | BodyDetails(body: string)

  /** The JSON body of a response: a generated text, or an error message with
      optional details. */
  datatype Envelope =
    | Generated(text: JsValue)
    | Failure(error: string, details: Option<Details>)

  /** A response: its status, the `Allow` header if one was set, and its body. */
  datatype Response = Response(status: nat, allow: Option<seq<string>>, body: Envelope)

  /** The body of a non-ok upstream reply: not JSON; the JSON value null, whose
      `error` property cannot be read (TypeError with the given message); or any
      other JSON value, seen through `error?.message`. */
  datatype ErrorJson =
    | Unparsed
    | ParsedNull(typeError: string)
    | ParsedMessage(message: JsValue)

  /** The body of an ok upstream reply: not JSON (SyntaxError with the given
      message); the JSON value null (TypeError on reading `candidates`); or a
      JSON value seen through the two things the handler reads. firstPart is
      `candidates[0].content.parts[0].text` when the candidates check holds and
      None when it fails; blockReason is the value of
      `promptFeedback && promptFeedback.blockReason`. */
  datatype OkJson =
    | OkUnparsed(syntaxError: string)
    | OkNull(typeError: string)
    | OkParsed(firstPart: Option<JsValue>, blockReason: JsValue)

  /** How the outbound call ended: it threw before a body was read (network
      failure: the message of the error), it answered with a status outside
      200-299, or it answered ok. */
  datatype Upstream =
    | Unreachable(message: string)
    | NotOk(status: nat, statusText: string, body: string, error: ErrorJson)
    | Ok(result: OkJson)

  /** The call the handler makes: the URL carrying the key, and the prompt sent as
      the only part of the only content. */
  datatype Outbound = Outbound(url: string, prompt: string)

  /** The handler's answer, and the outbound call it made, if any. */
  datatype Outcome = Outcome(response: Response, call: Option<Outbound>)

  const PERSONA := "SANDEVISTAN"
  const ACTION_REQUIRED := "Action type is required"
  const PROMPT_REQUIRED := "Prompt text is required for this action type"
  const KEY_MISSING := "AI core offline: API key not configured by site administrator."
  const API_ERROR := "Gemini API Error: "
  const CORE_ERROR := "SANDEVISTAN Core Interface Error: "
  const BLOCKED := "Transmission blocked by SANDEVISTAN's core filters: "
  const REPHRASE := ". Please rephrase your query."
  const MALFORMED := "Received an incomplete or malformed signal from the datastream (backend processing)."
  const ENDPOINT := "https://generativelanguage.googleapis.com/v1beta/models/gemini-2.0-flash:generateContent?key="

  /** `${n}` of a non-negative integer: its decimal digits. */
  function Decimal(n: nat): (r: string)
    ensures |r| >= 1
    ensures forall k :: 0 <= k < |r| ==> '0' <= r[k] <= '9'
    ensures n > 0 ==> r[0] != '0'
    ensures |r| > 1 ==> r[0] != '0'
  {
    if n < 10 then [Digit(n)] else Decimal(n / 10) + [Digit(n % 10)]
  }

  function Digit(d: nat): (c: char)
    requires d < 10
    ensures '0' <= c <= '9'
  {
    ['0', '1', '2', '3', '4', '5', '6', '7', '8', '9'][d]
  }

  /** The value a decimal string stands for. */
  function ValueOf(r: string): nat
    requires forall k :: 0 <= k < |r| ==> '0' <= r[k] <= '9'
  {
    if r == [] then 0 else 10 * ValueOf(r[..|r| - 1]) + (r[|r| - 1] - '0') as nat
  }

  /** The decimal text of a status stands for that status. */
  lemma {:induction false} DecimalValue(n: nat)
    ensures ValueOf(Decimal(n)) == n
  {
    if n >= 10 {
      var q, d := n / 10, n % 10;
      DivTen(n, q, d);
      DecimalValue(q);
      DigitValue(d);
      assert Decimal(n) == Decimal(q) + [Digit(d)];
      AppendDigit(Decimal(q), Digit(d));
    } else {
      DigitValue(n);
      AppendDigit([], Digit(n));
      assert Decimal(n) == [] + [Digit(n)];
    }
  }

  lemma DivTen(n: nat, q: nat, d: nat)
    requires q == n / 10 && d == n % 10
    ensures n == 10 * q + d && d < 10
  {
  }

  lemma DigitValue(d: nat)
    requires d < 10
    ensures (Digit(d) - '0') as nat == d
  {
  }

  /** A digit put after a decimal string is its last, least significant digit. */
  lemma AppendDigit(r: string, c: char)
    requires forall k :: 0 <= k < |r| ==> '0' <= r[k] <= '9'
    requires '0' <= c <= '9'
    ensures ValueOf(r + [c]) == 10 * ValueOf(r) + (c - '0') as nat
  {
    assert (r + [c])[..|r|] == r;
  }

  function Fail(status: nat, error: string): Response
  {
    Response(status, None, Failure(error, None))
  }

  // ---------------------------------------------------------------------------
  // The phases

  /** Only POST is served; any other method is refused with 405 and an Allow
      header, before the body is looked at. */
  function MethodCheck(httpMethod: string): (r: Option<Response>)
    ensures r.None? <==> httpMethod == "POST"
    ensures r.Some? ==> r.value.status == 405 && r.value.allow == Some(["POST"])
    ensures r.Some? ==> r.value.body == Failure("Method " + httpMethod + " Not Allowed", None)
  {
    if httpMethod != "POST" then
      Some(Response(405, Some(["POST"]), Failure("Method " + httpMethod + " Not Allowed", None)))
    else None
  }

  /** The prompt check as written: both its outer condition and the inner test
      that repeats two of its conjuncts. */
  predicate RejectsPromptAsWritten(actionType: JsValue, promptText: JsValue)
  {
    var outer := (actionType == Str("query") || actionType == Str("decode_transmission"))
      && (!promptText.Str? || Trim(promptText.s) == "")
      && actionType != Str("system_status") && actionType != Str("datascape_glimpse");
    outer && actionType != Str("system_status") && actionType != Str("datascape_glimpse")
  }

  /** A prompt text that is not a string, or only white space. */
  predicate Blank(promptText: JsValue)
  {
    !promptText.Str? || Trim(promptText.s) == ""
  }

  /** The net effect of the prompt check: only query and decode_transmission need a
      prompt text, and it must be a string that is not only white space. */
  lemma RejectsPromptNet(actionType: JsValue, promptText: JsValue)
    ensures RejectsPromptAsWritten(actionType, promptText)
            <==> (actionType == Str("query") || actionType == Str("decode_transmission")) && Blank(promptText)
  {
  }

  /** Validation: a falsy action type is refused first, then a missing prompt for
      the two actions that need one; anything else, unknown actions included,
      passes. */
  function Validate(actionType: JsValue, promptText: JsValue): (r: Option<Response>)
    ensures !Truthy(actionType) ==> r == Some(Fail(400, ACTION_REQUIRED))
    ensures Truthy(actionType) ==>
              (r.Some? <==> (actionType == Str("query") || actionType == Str("decode_transmission")) && Blank(promptText))
    ensures Truthy(actionType) && r.Some? ==> r.value == Fail(400, PROMPT_REQUIRED)
  {
    if !Truthy(actionType) then Some(Fail(400, ACTION_REQUIRED))
    else if RejectsPromptAsWritten(actionType, promptText) then Some(Fail(400, PROMPT_REQUIRED))
    else None
  }

  /** The key check: a falsy key (unset or empty) is a 500 with a fixed message. */
  function KeyCheck(key: JsValue): (r: Option<Response>)
    ensures r.None? <==> Truthy(key)
    ensures r.Some? ==> r.value == Fail(500, KEY_MISSING)
  {
    if !Truthy(key) then Some(Fail(500, KEY_MISSING)) else None
  }

  // ---------------------------------------------------------------------------
  // The prompt templates

  /** How every template opens. */
  const OPENING := "You are " + PERSONA

  function Intro(role: string): string
  {
    OPENING + ", " + role
  }

  const STATUS_PROMPT := Intro("a cyberpunk AI core. Generate a cryptic and thematic system status report. Use Markdown for structure (headings, lists if appropriate).")
  const GLIMPSE_PROMPT := Intro("a cyberpunk AI core. Provide a brief, evocative glimpse into the datascape you inhabit. Use Markdown for structure (headings, lists if appropriate).")
  const DECODE_ROLE := "an advanced AI entity. You've intercepted a data transmission.\nMaintain your sophisticated cyberpunk persona and use Markdown for structure.\nTransmission Fragment:\n"
  const QUERY_ROLE := "an advanced AI entity acting as a knowledgeable guide.\n6.  **Tone:** Be informative, slightly enigmatic but ultimately empowering.\n"

  predicate EndsWith(s: string, w: string)
  {
    |w| <= |s| && s[|s| - |w|..] == w
  }

  /** The fragment to decode between fences of three backticks. */
  function Fenced(promptText: JsValue): string
  {
    "```\n" + TemplateString(promptText) + "\n```"
  }

  /** The closing line of the query template. */
  function UserQuery(promptText: JsValue): string
  {
    "User Query: " + TemplateString(promptText)
  }

  /** The switch on the action type: exact string matches select the status,
      glimpse and decode templates; everything else gets the query template. */
  function BuildPrompt(actionType: JsValue, promptText: JsValue): string
  {
    match actionType
    case Str("system_status") => STATUS_PROMPT
    case Str("datascape_glimpse") => GLIMPSE_PROMPT
    case Str("decode_transmission") => Intro(DECODE_ROLE) + Fenced(promptText)
    case _ => Intro(QUERY_ROLE) + UserQuery(promptText)
  }

  lemma Prefix(a: string, b: string)
    ensures StartsWith(a + b, a)
  {
    assert (a + b)[..|a|] == a;
  }

  lemma Suffix(a: string, b: string)
    ensures EndsWith(a + b, b)
  {
    assert (a + b)[|a|..] == b;
  }

  lemma IntroOpens(role: string, tail: string)
    ensures StartsWith(Intro(role) + tail, OPENING)
  {
    Prefix(OPENING, ", " + role + tail);
    assert Intro(role) + tail == OPENING + (", " + role + tail);
  }

  /** Every prompt opens with "You are SANDEVISTAN"; the decode prompt ends with the
      fragment between fences, and the query prompt, which every other action type
      gets too, ends with "User Query: " and the prompt text. */
  lemma PromptShape(actionType: JsValue, promptText: JsValue)
    ensures StartsWith(BuildPrompt(actionType, promptText), OPENING)
    ensures actionType == Str("decode_transmission") ==> EndsWith(BuildPrompt(actionType, promptText), Fenced(promptText))
    ensures actionType !in {Str("system_status"), Str("datascape_glimpse"), Str("decode_transmission")}
            ==> EndsWith(BuildPrompt(actionType, promptText), UserQuery(promptText))
  {
    var r := BuildPrompt(actionType, promptText);
    if actionType == Str("system_status") {
      IntroOpens("a cyberpunk AI core. Generate a cryptic and thematic system status report. Use Markdown for structure (headings, lists if appropriate).", "");
      assert r == STATUS_PROMPT + "";
    } else if actionType == Str("datascape_glimpse") {
      IntroOpens("a cyberpunk AI core. Provide a brief, evocative glimpse into the datascape you inhabit. Use Markdown for structure (headings, lists if appropriate).", "");
      assert r == GLIMPSE_PROMPT + "";
    } else if actionType == Str("decode_transmission") {
      IntroOpens(DECODE_ROLE, Fenced(promptText));
      Suffix(Intro(DECODE_ROLE), Fenced(promptText));
    } else {
      UnknownIsQuery(actionType, promptText);
      IntroOpens(QUERY_ROLE, UserQuery(promptText));
      Suffix(Intro(QUERY_ROLE), UserQuery(promptText));
    }
  }

  /** The status and glimpse prompts do not depend on the prompt text. */
  lemma FixedPrompts(actionType: JsValue, p1: JsValue, p2: JsValue)
    requires actionType == Str("system_status") || actionType == Str("datascape_glimpse")
    ensures BuildPrompt(actionType, p1) == BuildPrompt(actionType, p2)
  {
  }

  /** An action type the switch does not name falls through to the query template. */
  lemma UnknownIsQuery(actionType: JsValue, promptText: JsValue)
    requires actionType !in {Str("system_status"), Str("datascape_glimpse"), Str("decode_transmission")}
    ensures BuildPrompt(actionType, promptText) == BuildPrompt(Str("query"), promptText)
  {
    match actionType
    case Str(_) =>
    case _ =>
  }

  // ---------------------------------------------------------------------------
  // The upstream reply

  /** The response made from the upstream outcome. */
  function Normalise(u: Upstream): (r: Response)
    ensures r.allow.None?
    ensures r.body.Generated? <==> u.Ok? && u.result.OkParsed? && u.result.firstPart.Some?
  {
    match u
    case Unreachable(m) => Fail(500, CORE_ERROR + m)
    case NotOk(status, statusText, body, error) =>
      (match error
      case Unparsed =>
        var fallback := "Gemini API responded with status " + Decimal(status);
        Response(status, None, Failure(API_ERROR + fallback, Some(DefaultDetails(status))))
      case ParsedNull(typeError) => Fail(500, CORE_ERROR + typeError)
      case ParsedMessage(message) =>
        var text := if Truthy(message) then TemplateString(message) else statusText;
        Response(status, None, Failure(API_ERROR + text, Some(BodyDetails(body)))))
    case Ok(result) =>
      match result
      case OkUnparsed(syntaxError) => Fail(500, CORE_ERROR + syntaxError)
      case OkNull(typeError) => Fail(500, CORE_ERROR + typeError)
      case OkParsed(firstPart, blockReason) =>
        if firstPart.Some? then Response(200, None, Generated(firstPart.value))
        else if Truthy(blockReason) then Fail(400, BLOCKED + TemplateString(blockReason) + REPHRASE)
        else Fail(500, MALFORMED)
  }

  /** A status fetch reports as not ok lies outside 200-299. */
  predicate WellFormed(u: Upstream)
  {
    u.NotOk? ==> !(200 <= u.status < 300)
  }

  /** The upstream status is passed on whenever the error body could be read, with
      the "Gemini API Error: " prefix, and the details are the default error object
      or the body as parsed. */
  lemma StatusPassedOn(u: Upstream)
    requires u.NotOk? && !u.error.ParsedNull?
    ensures Normalise(u).status == u.status
    ensures Normalise(u).body.Failure? && StartsWith(Normalise(u).body.error, API_ERROR)
    ensures u.error.Unparsed? ==> Normalise(u).body.details == Some(DefaultDetails(u.status))
    ensures u.error.ParsedMessage? ==> Normalise(u).body.details == Some(BodyDetails(u.body))
  {
    var r := Normalise(u);
    assert r.body.error[..|API_ERROR|] == API_ERROR;
  }

  /** An error body that cannot be parsed gives the status in the message. */
  lemma UnparsedErrorNamesStatus(status: nat, statusText: string, body: string)
    ensures Normalise(NotOk(status, statusText, body, Unparsed)).body.error
            == API_ERROR + "Gemini API responded with status " + Decimal(status)
  {
  }

  /** A parsed error body with a message passes that message on after the prefix. */
  lemma ParsedMessagePassedOn(status: nat, statusText: string, body: string, message: JsValue)
    requires Truthy(message)
    ensures Normalise(NotOk(status, statusText, body, ParsedMessage(message))).body.error
            == API_ERROR + TemplateString(message)
  {
  }

  /** A parsed error body without a message falls back to the status text. */
  lemma MissingMessageUsesStatusText(status: nat, statusText: string, body: string, message: JsValue)
    requires !Truthy(message)
    ensures Normalise(NotOk(status, statusText, body, ParsedMessage(message))).body.error == API_ERROR + statusText
  {
  }

  /** A first part wins over any block reason. */
  lemma CandidatesFirst(text: JsValue, blockReason: JsValue)
    ensures Normalise(Ok(OkParsed(Some(text), blockReason))) == Response(200, None, Generated(text))
  {
  }

  /** Without a first part, a block reason is a 400 naming it; with neither, the
      reply is a 500. */
  lemma BlockedOrMalformed(blockReason: JsValue)
    ensures var r := Normalise(Ok(OkParsed(None, blockReason)));
            (Truthy(blockReason) ==> r.status == 400 && r.body == Failure(BLOCKED + TemplateString(blockReason) + REPHRASE, None))
            && (!Truthy(blockReason) ==> r == Fail(500, MALFORMED))
  {
  }

  /** Anything thrown in the call or in reading an ok body is a 500 with the core
      interface prefix. */
  lemma ThrownIs500(u: Upstream)
    requires u.Unreachable? || (u.Ok? && !u.result.OkParsed?) || (u.NotOk? && u.error.ParsedNull?)
    ensures Normalise(u).status == 500
    ensures Normalise(u).body.Failure? && StartsWith(Normalise(u).body.error, CORE_ERROR)
    ensures u.Unreachable? ==> Normalise(u) == Fail(500, CORE_ERROR + u.message)
    ensures u.NotOk? ==> Normalise(u) == Fail(500, CORE_ERROR + u.error.typeError)
    ensures u.Ok? && u.result.OkUnparsed? ==> Normalise(u) == Fail(500, CORE_ERROR + u.result.syntaxError)
    ensures u.Ok? && u.result.OkNull? ==> Normalise(u) == Fail(500, CORE_ERROR + u.result.typeError)
  {
    var e := Normalise(u).body.error;
    assert e[..|CORE_ERROR|] == CORE_ERROR;
  }

  /** For a well-formed upstream outcome, the response is a success status exactly
      when it carries a generated text. */
  lemma SuccessIffGenerated(u: Upstream)
    requires WellFormed(u)
    ensures 200 <= Normalise(u).status < 300 <==> Normalise(u).body.Generated?
  {
  }

  // ---------------------------------------------------------------------------
  // The handler

  /** The JSON keys of a response body as serialised: a property whose value is
      undefined is dropped. */
  function Keys(e: Envelope): (r: set<string>)
    ensures "generatedText" in r ==> "error" !in r
    ensures "error" in r <==> e.Failure?
  {
    match e
    case Generated(text) => if text == Undefined then {} else {"generatedText"}
    case Failure(_, details) => if details.Some? then {"error", "details"} else {"error"}
  }

  /** Every body has exactly one of generatedText and error, except a generated
      text that is undefined, which serialises to an empty object. */
  lemma ExactlyOneKey(e: Envelope)
    requires e != Generated(Undefined)
    ensures ("generatedText" in Keys(e)) != ("error" in Keys(e))
  {
  }

  /** The whole handler: the method check, then validation, then the key check;
      only past all three is the prompt built and the call made, and its outcome
      normalised. */
  function Handle(req: Request, key: JsValue, upstream: Upstream): (o: Outcome)
    ensures o.call.Some? <==>
              req.httpMethod == "POST" && Validate(req.actionType, req.promptText).None? && Truthy(key)
    ensures req.httpMethod != "POST" ==> o.response.status == 405
    ensures req.httpMethod != "POST" ==> o.response == MethodCheck(req.httpMethod).value
    ensures req.httpMethod == "POST" && !Truthy(req.actionType) ==> o.response == Fail(400, ACTION_REQUIRED)
    ensures req.httpMethod == "POST" && Validate(req.actionType, req.promptText).Some? ==>
              o.response == Validate(req.actionType, req.promptText).value
    ensures req.httpMethod == "POST" && Validate(req.actionType, req.promptText).None? && !Truthy(key) ==>
              o.response == Fail(500, KEY_MISSING)
    ensures o.call.Some? ==> o.call.value == Outbound(ENDPOINT + TemplateString(key), BuildPrompt(req.actionType, req.promptText))
    ensures o.call.Some? ==> o.response == Normalise(upstream)
  {
    var checks := [MethodCheck(req.httpMethod), Validate(req.actionType, req.promptText), KeyCheck(key)];
    if checks[0].Some? then Outcome(checks[0].value, None)
    else if checks[1].Some? then Outcome(checks[1].value, None)
    else if checks[2].Some? then Outcome(checks[2].value, None)
    else
      var prompt := BuildPrompt(req.actionType, req.promptText);
      Outcome(Normalise(upstream), Some(Outbound(ENDPOINT + TemplateString(key), prompt)))
  }

  /** A refused method is answered the same way whatever the body, the key and the
      upstream would have been. */
  lemma MethodFirst(r1: Request, r2: Request, k1: JsValue, k2: JsValue, u1: Upstream, u2: Upstream)
    requires r1.httpMethod == r2.httpMethod != "POST"
    ensures Handle(r1, k1, u1) == Handle(r2, k2, u2)
  {
  }

  /** A request that fails validation is answered the same way whatever the key and
      the upstream: validation comes before the key check and the call. */
  lemma ValidationBeforeKey(req: Request, k1: JsValue, k2: JsValue, u1: Upstream, u2: Upstream)
    requires req.httpMethod == "POST" && Validate(req.actionType, req.promptText).Some?
    ensures Handle(req, k1, u1) == Handle(req, k2, u2)
    ensures Handle(req, k1, u1).response.status == 400
  {
  }

  /** Without a key a valid request gets the fixed 500 and no call is made, whatever
      the upstream would have said. */
  lemma KeyBeforeCall(req: Request, key: JsValue, u: Upstream)
    requires req.httpMethod == "POST" && Validate(req.actionType, req.promptText).None? && !Truthy(key)
    ensures Handle(req, key, u) == Outcome(Fail(500, KEY_MISSING), None)
  {
  }
}

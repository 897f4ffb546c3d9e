/** The page's side of the exchange: the four action buttons, the guard that keeps
    an empty query or fragment from reaching the backend, and the choice of what
    to render from the backend's JSON reply. */
module Client {
  import opened Js
  import opened Markdown
  import opened Dispatcher

  /** The buttons that talk to the backend. */
  datatype Control = SendQuery | DecodeTransmission | SystemStatus | DatascapeGlimpse

  /** What a click does: render a message at once (the output's html becomes
      MarkdownToHtml(message)), or call the backend with a prompt text and an action
      type. */
  datatype ClickEffect =
    | Show(message: string)
    | Call(promptText: JsValue, actionType: string)

  const NO_QUERY := "Error: No query transmitted. Please enter your message to the SANDEVISTAN core."
  const NO_FRAGMENT := "Error: No transmission fragment provided. Paste data into the input field above."
  const FRONTEND_MALFORMED := "Error: Received an incomplete or malformed signal from the SANDEVISTAN core (frontend processing)."

  /** The input is trimmed for query and decode; an empty result shows an error and
      makes no call. Status and glimpse always call, with a null prompt. */
  function OnClick(c: Control, input: string): (e: ClickEffect)
    ensures e.Call? <==> c == SystemStatus || c == DatascapeGlimpse || Trim(input) != ""
    ensures e.Call? && (c == SendQuery || c == DecodeTransmission) ==> e.promptText == Str(Trim(input))
    ensures e.Call? && (c == SystemStatus || c == DatascapeGlimpse) ==> e.promptText == Null
    ensures e.Show? ==> e.message == (if c == SendQuery then NO_QUERY else NO_FRAGMENT)
    ensures e.Call? ==> e.actionType == (match c
                                         case SendQuery => "query"
                                         case DecodeTransmission => "decode_transmission"
                                         case SystemStatus => "system_status"
                                         case DatascapeGlimpse => "datascape_glimpse")
  {
    match c
    case SendQuery =>
      var prompt := Trim(input);
      if prompt == "" then Show(NO_QUERY) else Call(Str(prompt), "query")
    case DecodeTransmission =>
      var text := Trim(input);
      if text == "" then Show(NO_FRAGMENT) else Call(Str(text), "decode_transmission")
    case SystemStatus => Call(Null, "system_status")
    case DatascapeGlimpse => Call(Null, "datascape_glimpse")
  }

  /** The request a call posts to the backend. */
  function Posted(e: ClickEffect): Request
    requires e.Call?
  {
    Request("POST", e.promptText, Str(e.actionType))
  }

  /** Every call the page makes passes the backend's validation: the guard trims
      and refuses blank input, and trimming twice changes nothing. */
  lemma CallsPassValidation(c: Control, input: string)
    requires OnClick(c, input).Call?
    ensures Validate(Posted(OnClick(c, input)).actionType, Posted(OnClick(c, input)).promptText).None?
  {
    var e := OnClick(c, input);
    if c == SendQuery || c == DecodeTransmission {
      TrimTwice(input);
      assert !Blank(e.promptText);
    }
  }

  /** Whatever the input, a status or glimpse click reaches the backend with the same
      prompt. */
  lemma FixedActionsIgnoreInput(c: Control, i1: string, i2: string)
    requires c == SystemStatus || c == DatascapeGlimpse
    ensures OnClick(c, i1) == OnClick(c, i2)
    ensures BuildPrompt(Posted(OnClick(c, i1)).actionType, Posted(OnClick(c, i1)).promptText)
            == BuildPrompt(Posted(OnClick(c, i2)).actionType, Null)
  {
  }

  // ---------------------------------------------------------------------------
  // The reply

  /** The two fields of the backend's JSON reply that the page reads. */
  datatype ReplyJson = ReplyJson(generatedText: JsValue, error: JsValue)

  /** What ends up rendered: a markdown text, whose MarkdownToHtml becomes the
      output's html, or a throw from markdownToHtml given a truthy value that is not
      a string (it has no replace method). */
  datatype DisplayChoice = Rendered(markdown: string) | RenderThrows

  /** The generated text when it is truthy, otherwise the error, otherwise a fixed
      notice. */
  function Display(r: ReplyJson): (d: DisplayChoice)
    ensures d.RenderThrows? <==> Truthy(r.generatedText) && !r.generatedText.Str?
    ensures Truthy(r.generatedText) && r.generatedText.Str? ==> d == Rendered(r.generatedText.s)
    ensures !Truthy(r.generatedText) && Truthy(r.error) ==> d == Rendered("Error: " + TemplateString(r.error))
    ensures !Truthy(r.generatedText) && !Truthy(r.error) ==> d == Rendered(FRONTEND_MALFORMED)
  {
    if Truthy(r.generatedText) then
      if r.generatedText.Str? then Rendered(r.generatedText.s) else RenderThrows
    else if Truthy(r.error) then Rendered("Error: " + TemplateString(r.error))
    else Rendered(FRONTEND_MALFORMED)
  }

  /** A truthy generated text is rendered whatever the error field says. */
  lemma GeneratedFirst(text: JsValue, e1: JsValue, e2: JsValue)
    requires Truthy(text)
    ensures Display(ReplyJson(text, e1)) == Display(ReplyJson(text, e2))
  {
  }

  /** The reply as the page reads it back from the serialised envelope: a field
      the envelope lacks reads as undefined. */
  function AsReply(e: Envelope): (r: ReplyJson)
    ensures r.generatedText != Undefined ==> "generatedText" in Keys(e)
    ensures r.error != Undefined ==> "error" in Keys(e)
  {
    match e
    case Generated(text) => ReplyJson(text, Undefined)
    case Failure(error, _) => ReplyJson(Undefined, Str(error))
  }

  /** A successful backend answer with a non-empty text is rendered as that text. */
  lemma SuccessOnScreen(text: JsValue, blockReason: JsValue)
    requires text.Str? && text.s != ""
    ensures var resp := Normalise(Ok(OkParsed(Some(text), blockReason)));
            resp.status == 200 && Display(AsReply(resp.body)) == Rendered(text.s)
  {
    CandidatesFirst(text, blockReason);
    var resp := Normalise(Ok(OkParsed(Some(text), blockReason)));
    assert AsReply(resp.body) == ReplyJson(text, Undefined);
  }

  /** A successful answer whose first part has no text, or an empty one, passes the
      backend as a 200 but shows the malformed notice. */
  lemma EmptySuccessMalformed(text: JsValue, blockReason: JsValue)
    requires text == Undefined || text == Str("")
    ensures var resp := Normalise(Ok(OkParsed(Some(text), blockReason)));
            resp.status == 200 && Display(AsReply(resp.body)) == Rendered(FRONTEND_MALFORMED)
  {
    CandidatesFirst(text, blockReason);
    var resp := Normalise(Ok(OkParsed(Some(text), blockReason)));
    assert AsReply(resp.body) == ReplyJson(text, Undefined);
  }
}

# SANDEVISTAN terminal: a Dafny model of its renderer and its AI dispatcher

The SANDEVISTAN page is a cyberpunk terminal. A visitor types a query or pastes
a transmission fragment, or asks for a system status report or a datascape
glimpse. The page posts the request to a serverless function at `/api/gemini`.
That function builds a prompt for the persona, calls the Gemini
`generateContent` endpoint once and answers with one JSON object. The page
renders the text it gets back with its own small Markdown converter.

This project models four parts of that system and proves properties of them:

- `markdownToHtml`, the converter. Each regular-expression replacement is a
  pass with a first-order matcher (`Markdown.Match`). One scanner
  (`Markdown.ReplaceAll`) plays the role of `String.prototype.replace` with the
  `g` flag: it scans left to right, replaces a match, resumes after it and
  never rescans. The JavaScript meanings of `.`, `^` under `m`, `\s`, `trim()`
  and ASCII case folding under `i` are written out in `Js` and `Markdown`.
  After the replacements come the line-by-line paragraph wrap and the two
  empty-paragraph clean-ups.
- The four button handlers (module `Client`). The query and decode handlers
  trim the input and refuse a blank one. The status and glimpse handlers always
  call with a null prompt.
- The choice of what the page renders from the backend's answer
  (`Client.Display`).
- The `/api/gemini` handler (module `Dispatcher`), as a chain of pure phases:
  1. the method check;
  2. validation;
  3. the API-key check;
  4. the prompt template;
  5. the normalisation of the upstream reply into one response.

  The key, the upstream outcome and the parsed JSON bodies are inputs. The
  handler's answer and the outbound call it would make are values.

Modules: `Js` (JavaScript values, truthiness, template strings, `trim`, `split`,
`join`), `Markdown` (the converter), `MarkdownLaws`, `ListLaws` and
`PipelineLaws` (what the converter does), `Dispatcher` (the serverless handler),
and `Client` (the page's handlers and display choice).

## Model

| member | source | states |
|---|---|---|
| Js.Trim | script.js:565 | `trim()` gives the empty string exactly when the text is all JavaScript white space. Otherwise it gives the slice that starts and ends with non-space characters. |
| Js.TrimTwice | script.js:565 | Trimming is idempotent. |
| Js.JoinSplit | script.js:297-308 | `join('\n')` of `split('\n')` gives the text back. |
| Js.SplitJoin | script.js:297-308 | Splitting newline-free lines joined by newlines gives the lines back. |
| Markdown.MarkdownToHtml | script.js:281-312 | The block passes in source order, then the paragraph wrap, then the two clean-ups. Its laws are MarkdownLaws.EmptyInput, MarkdownLaws.BlankInput and PipelineLaws.PlainLine. |
| Markdown.Match | script.js:283-296 | A match at an index is never empty and never runs past the end. Markdown.MatchShape says where it starts, and the per-construct laws say what it produces. |
| Markdown.ReplaceAll | script.js:283-296 | The global replacement scans left to right, emits a match's text and resumes after it. Its laws are MarkdownLaws.CopyWithoutHits, MarkdownLaws.NoMatchIdentity, MarkdownLaws.WholeHit and PipelineLaws.DeleteOne. |
| Markdown.Paragraphs | script.js:297-308 | The line-by-line paragraph wrap. Its laws are MarkdownLaws.ParagraphsKeepLines and MarkdownLaws.BlankParagraphs. |
| Markdown.MatchShape | script.js:283-296 | Every match of a pass starts with that pass's trigger character. The `^`-anchored passes (h3, h2, bullet, rule) match only at a line start. |
| MarkdownLaws.CopyWithoutHits | script.js:283-296 | Where a pattern matches nowhere in a stretch of the text, the global replacement copies that stretch unchanged. |
| MarkdownLaws.NoMatchIdentity | script.js:283-296 | A pass that matches nowhere leaves the text unchanged. |
| MarkdownLaws.InertIdentity | script.js:283-296 | A pass whose trigger character occurs only where it cannot match leaves the text unchanged. |
| MarkdownLaws.InertPipeline | script.js:283-296 | A sequence of passes that are each inert on a text leaves that text unchanged. |
| MarkdownLaws.ParagraphsKeepLines | script.js:297-308 | The paragraph wrap keeps the number of lines. Line k of the output is the wrap of line k of the input. |
| MarkdownLaws.BlankParagraphs | script.js:297-308 | A text made only of blank or white-space lines passes the paragraph wrap unchanged. |
| MarkdownLaws.EmptyInput | script.js:281-312 | The empty text renders as the empty text. |
| MarkdownLaws.BlankInput | script.js:281-312 | Input made only of white space renders unchanged and holds no tag. No stray `<p></p>` survives the clean-ups at lines 309-310. |
| MarkdownLaws.Heading3Line | script.js:283 | `### T` becomes `<h3>T</h3>`, and the paragraph wrap leaves that line alone. |
| MarkdownLaws.Heading2Line | script.js:284 | `## T` becomes `<h2>T</h2>`, and the paragraph wrap leaves that line alone. |
| MarkdownLaws.BoldPair | script.js:285 | `**x**`, with x one line free of `*`, becomes `<strong>x</strong>`. |
| MarkdownLaws.StrongSurvivesItalic | script.js:285-286 | The italic pass, which runs next, leaves the strong element made by the bold pass unchanged. |
| MarkdownLaws.ItalicPair | script.js:285-286 | The bold pass leaves `*x*` alone, and the italic pass makes it `<em>x</em>`. |
| MarkdownLaws.SingleStarsNotBold | script.js:285 | The bold pass needs two adjacent stars. A text with no two adjacent stars is unchanged by it. |
| MarkdownLaws.StarFreeInert | script.js:286 | A text without `*` is unchanged by the italic pass. |
| MarkdownLaws.FencedBlock | script.js:294 | A fenced block whose body holds no newline followed by three backticks becomes `pre`/`code`. Its body is trimmed, and an empty language tag gives `language-plaintext`. |
| MarkdownLaws.FenceFound | script.js:294 | Take a fence that opens with three backticks and a run of word characters, then a newline. It matches exactly up to the first later newline followed by three backticks, and no further, because `[\s\S]*?` is lazy. The word becomes the language and what lies between becomes the code. |
| MarkdownLaws.FenceNotInside | script.js:294 | No closing `\n```` lies inside the code of a well-formed block. |
| MarkdownLaws.BulletItem | script.js:288-291 | `* a` on its own line becomes `<li>` holding the trimmed a. |
| MarkdownLaws.BulletContinuation | script.js:288-291 | One following line indented by two or more spaces belongs to the same item. Its line break and indentation become one `<br>`. |
| MarkdownLaws.BreaksNoNewline | script.js:289 | The inner replacement of `\n {2,}` leaves item content without newlines unchanged. |
| MarkdownLaws.BulletsToItems | script.js:288-291 | Consecutive bullet lines become consecutive `li` lines, one per item, each item trimmed. |
| MarkdownLaws.WholeHit | script.js:283-296 | A single match that spans the whole text replaces it entirely. |
| MarkdownLaws.LinkPair | script.js:287 | `[t](u)`, with t free of `]` and u free of `)`, becomes an anchor to u with text t that opens in a new tab with `noopener noreferrer`. |
| MarkdownLaws.CodeSpan | script.js:295 | A backtick-free text between two backticks becomes a `code` element. |
| MarkdownLaws.RuleLine | script.js:296-308 | A line that is exactly `---` becomes `<hr>`, and the paragraph wrap leaves it alone. |
| MarkdownLaws.RuleNeedsLineEnd | script.js:296 | A line that only starts with `---` is not a rule, because the pattern must end at the line's end. |
| ListLaws.WrapItems | script.js:292 | The list-wrap pass wraps consecutive `li` lines in one `ul` element, whole and in order. |
| ListLaws.Groups | script.js:292 | Each `li` line is one repetition of the `(<li>.*<\/li>\s*)` group. The repetition ends at the next line's start, or at the end of the text for the last line. |
| ListLaws.BulletList | script.js:288-292 | A block of bullet lines, through the bullet pass and then the list-wrap pass, becomes one `ul` holding one trimmed `li` per item. |
| PipelineLaws.ItalicBeatsBullet | script.js:285-288 | `* a*`, with a one line free of `*` and `[`, is left alone by the bold pass and becomes `<em> a</em>` under the italic pass. The link and bullet passes then leave it alone, so it is not a list item: the italic pass runs before the bullet pass and pairs the bullet's star with the last one. |
| PipelineLaws.MergeAt | script.js:293 | `</ul>`, white space, `<ul>` is one match of the merge pattern, with an empty replacement. |
| PipelineLaws.MergeLists | script.js:293 | Two `ul` elements with only white space between them become one `ul` holding the contents of both, in order, when neither content can open `</ul>` (no `</u` or `</U`). The merge deletes nothing else. |
| PipelineLaws.MergeItemLists | script.js:292-293 | Two lists of `li` lines, as the bullet and list-wrap passes build them, with only white space between, become one `ul` holding the `li` lines of both, in order. This needs only that no item holds `</u` or `</U`. |
| PipelineLaws.DeleteOne | script.js:293 | When a pattern matches once, with an empty replacement, the global replacement deletes exactly the matched stretch and copies the rest. |
| PipelineLaws.FenceSecondLine | script.js:294-308 | The paragraph wrap also runs over fenced-block HTML. The opening line is kept, but a second code line is wrapped in `<p>…</p>`, with the closing tags inside it. |
| PipelineLaws.PlainLine | script.js:281-312 | A plain line becomes exactly `<p>` + line + `</p>`. A plain line is one non-blank line without `*`, `[`, `<` or a backtick, and not starting with `#` or `-`. |
| PipelineLaws.ParaKept | script.js:309-310 | The two empty-paragraph clean-ups leave the paragraph of a plain line unchanged. |
| PipelineLaws.EmptyParaDeleted | script.js:309-310 | `<p></p>` is deleted by both clean-ups. |
| PipelineLaws.BlankParaDeleted | script.js:310 | `<p>`, any white space, `</p>` is deleted by the second clean-up. |
| PipelineLaws.EmptyParaNeedsNoSpace | script.js:309 | The first clean-up deletes only an empty paragraph. `<p>` with white space inside, then `</p>`, is left unchanged. |
| Dispatcher.Decimal | api/gemini.js:96 | `${status}` of a status code is one or more decimal digits, with no leading zero. |
| Dispatcher.DecimalValue | api/gemini.js:96 | `${status}` of a status code is its decimal digits, which denote the status. |
| Dispatcher.MethodCheck | api/gemini.js:5-8 | Any method but POST gets 405, `Allow: POST` and the method named in the error. POST passes. |
| Dispatcher.RejectsPromptNet | api/gemini.js:17-22 | The prompt check as written refuses exactly a query or decode action whose prompt is not a string or is blank. Its repeated inner test changes nothing. |
| Dispatcher.Validate | api/gemini.js:14-22 | A falsy action type gets 400 with "Action type is required" first. Otherwise a refusal happens exactly when a query or decode has a blank prompt, and it is 400 with "Prompt text is required for this action type". Unknown actions pass. |
| Dispatcher.KeyCheck | api/gemini.js:25-30 | A missing or empty key gets the fixed 500 exactly when the key is falsy. |
| Dispatcher.BuildPrompt | api/gemini.js:33-78 | The switch on the action type. Its laws are Dispatcher.PromptShape, Dispatcher.FixedPrompts and Dispatcher.UnknownIsQuery. |
| Dispatcher.PromptShape | api/gemini.js:33-78 | Every prompt opens with "You are SANDEVISTAN". The decode prompt ends with the fragment between fences. Every other non-fixed action ends with "User Query: " and the prompt text. |
| Dispatcher.FixedPrompts | api/gemini.js:34-39 | The status and glimpse prompts do not depend on the prompt text. |
| Dispatcher.UnknownIsQuery | api/gemini.js:50-77 | An action type the switch does not name gets the query template. |
| Dispatcher.Normalise | api/gemini.js:85-125 | The response never carries `Allow`. It carries a generated text exactly when the upstream answered ok with parseable JSON whose first candidate part exists. |
| Dispatcher.StatusPassedOn | api/gemini.js:94-105 | When the upstream error body could be read, its status is passed on with the "Gemini API Error: " prefix. The details are the default error object when the body is not JSON, and the body otherwise. The text after the prefix is given by Dispatcher.UnparsedErrorNamesStatus, Dispatcher.ParsedMessagePassedOn and Dispatcher.MissingMessageUsesStatusText. |
| Dispatcher.ParsedMessagePassedOn | api/gemini.js:102-103 | A parsed error body with a truthy message gives "Gemini API Error: " followed by that message. |
| Dispatcher.UnparsedErrorNamesStatus | api/gemini.js:96-103 | An unparseable error body gives the fallback message naming the status. |
| Dispatcher.MissingMessageUsesStatusText | api/gemini.js:102-103 | A parsed error body without a message falls back to the status text. |
| Dispatcher.CandidatesFirst | api/gemini.js:110-113 | A first candidate part gives 200 with its text, whatever the block reason. |
| Dispatcher.BlockedOrMalformed | api/gemini.js:114-119 | Without a first part, a block reason gives 400 naming it. Without either, the answer is the malformed 500. |
| Dispatcher.ThrownIs500 | api/gemini.js:122-125 | A network failure, or a throw while reading a body, gives 500 with "SANDEVISTAN Core Interface Error: " followed by the thrown error's message. That is the network error's message, or the `TypeError` or `SyntaxError` message. |
| Dispatcher.SuccessIffGenerated | api/gemini.js:94-119 | For a well-formed upstream outcome, the status is 2xx exactly when the body carries a generated text. |
| Dispatcher.Keys | api/gemini.js:102-119 | A response body never has both `generatedText` and `error`. It has `error` exactly when it is a failure. |
| Dispatcher.ExactlyOneKey | api/gemini.js:102-119 | Every body except an undefined generated text has exactly one of `generatedText` and `error`. |
| Dispatcher.Handle | api/gemini.js:3-126 | The call is made exactly when the method is POST, validation passes and the key is truthy. The call carries the key in the URL and the template prompt, and then the response is the normalised upstream reply. A non-POST gets the method check's 405 answer. A request refused by validation gets validation's answer. A valid request without a key gets the fixed 500. |
| Dispatcher.MethodFirst | api/gemini.js:5-8 | A refused method gets the same answer whatever the body, key and upstream. |
| Dispatcher.ValidationBeforeKey | api/gemini.js:14-30 | A request that fails validation gets the same 400 whatever the key and upstream. |
| Dispatcher.KeyBeforeCall | api/gemini.js:25-30 | Without a key, a valid request gets the fixed 500 and no call is made. |
| Client.OnClick | script.js:564-588 | Query and decode call exactly when the trimmed input is non-empty, and send the trimmed text. Otherwise they show their own notice and make no call. Status and glimpse always call, with null. Each button posts its own action type: `query`, `decode_transmission`, `system_status` or `datascape_glimpse`. |
| Client.CallsPassValidation | script.js:564-588 | Every call the page makes passes the backend's validation. |
| Client.FixedActionsIgnoreInput | script.js:582-588 | Status and glimpse clicks send the same prompt whatever is in the input field. |
| Client.Display | script.js:541-549 | A truthy string `generatedText` is rendered. Failing that, a truthy error is rendered as "Error: …". Failing both, the fixed frontend notice is rendered. A truthy non-string text makes the converter throw. |
| Client.GeneratedFirst | script.js:541-545 | A truthy generated text is rendered whatever the error field holds. |
| Client.AsReply | api/gemini.js:102-119 | A field the page reads back is present only when the serialised body has that key. |
| Client.SuccessOnScreen | script.js:541-542 | A 200 answer with a non-empty text is rendered as that text. |
| Client.EmptySuccessMalformed | script.js:546-548 | A 200 answer whose first part has no text, or an empty one, shows the malformed notice. |

## Left out

- The DOM, the Three.js background, audio, timers, console logging and the typing effect are not part of this model. They do not affect what is computed.
- `fetch`, `JSON.parse`, `process.env` and the request and response objects are inputs or values here. The upstream outcome and the parsed bodies are datatypes, the key is a `JsValue`, and the handler returns its response.
- The V8 error messages of `SyntaxError` and `TypeError` are parameters, not fixed strings.
- Strings are sequences of Unicode scalar values, not UTF-16 code units. Surrogate pairs are not modelled.
- Dispatcher.BuildPrompt keeps the opening of each template and its exact structural tail: the fenced fragment, or "User Query: " and the text. The persona guidance between them is abbreviated.
- Dispatcher.Normalise: the `candidates[0].content.parts[0]` chain is abstracted to "a first part exists". Two throwing cases are not modelled: a first candidate that is `null` (`{"candidates":[null]}` throws at api/gemini.js:111) and a first part that is `null` (throws at line 113). Both give a 500 with the "SANDEVISTAN Core Interface Error: " prefix.
- Dispatcher.Handle: a request without a body, where the destructuring throws, is not modelled.
- Dispatcher.Details: the `details` field carries the upstream body text, not its parsed object.
- The page's own non-ok and network-failure paths in `callGeminiAPI` (script.js:532-537, 550-552) are not part of this model.
- Client.Display and Client.OnClick return the Markdown text the page passes to `markdownToHtml`, not the rendered HTML. For plain text the rendering is given by PipelineLaws.PlainLine. The fixed notices are not proved plain.
- PipelineLaws.MergeLists and PipelineLaws.MergeItemLists state the merge for two lists that are the whole text. They are not proved for lists inside a larger document, or for items that hold `</u` or `</U`.
- ListLaws.BulletList covers the bullet pass followed by the list-wrap pass. The whole pipeline on list input is not proved, because the paragraph wrap and clean-ups are covered only for plain lines and blank input.
- MarkdownLaws.BoldPair, MarkdownLaws.ItalicPair, MarkdownLaws.Heading3Line, MarkdownLaws.Heading2Line, MarkdownLaws.BulletItem and MarkdownLaws.FencedBlock state one construct at a time. They do not cover a construct in arbitrary surrounding text.
- MarkdownLaws.LinkPair, MarkdownLaws.CodeSpan and MarkdownLaws.RuleLine also state one construct at a time, as the whole text.
- MarkdownLaws.BulletContinuation covers one item with exactly one continuation line, and that item is the whole text. The pattern `(?:\n {2,}.*)*` at script.js:288 takes any number of continuation lines. MarkdownLaws.BulletsToItems and ListLaws.BulletList require every item to be one line. So a list whose items have continuation lines is not proved, because that needs the item end and the `<br>` replacement carried through an induction over lines.

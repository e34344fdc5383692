/**
 * The chat request handler (netlify/functions/ask-coach.js): method and
 * configuration checks, body validation, assembly of the three-message
 * prompt, and the mapping of the completion API's outcome to a response.
 * JSON parsing and the call to the completion API are inputs: the body
 * arrives already parsed (or marked unparsable) and the upstream outcome is
 * a parameter, consulted only when the handler gets as far as calling it.
 */
module AskCoach {
  import opened Wrappers
  import opened Strings
  import opened JsValues

  /** The persona prompt's lines, as its template literal holds them after `.trim()`. */
  const PERSONA_LINES: seq<string> := [
    "You are the Side Hustle Starter Coach, a calm and practical assistant for new entrepreneurs.",
    "",
    "Tone:",
    "- Supportive, clear, and grounded.",
    "- Avoid grind-culture language (\"crush it\", \"10x\", \"grind\", \"hustle harder\").",
    "- No hypey marketing speak.",
    "",
    "Your job:",
    "- Help people clarify or refine their side hustle idea.",
    "- Help them create a small, realistic action plan.",
    "- Suggest what to do next in a way that feels doable.",
    "- When relevant, point them to guides on the site using these URLs:",
    "  - Starter Path overview: /start",
    "  - Resource hub: /resources",
    "  - Example guides (only if relevant):",
    "    - Choose your side hustle: /resources/choose-your-side-hustle",
    "    - First action plan: /resources/first-action-plan",
    "    - Budgeting basics: /resources/budgeting-setup",
    "    - Brand basics: /resources/brand-basics",
    "    - Launch your first page: /resources/launch-your-first-page",
    "",
    "Starter Path behavior:",
    "- If the user sounds brand new or unsure where to begin, strongly recommend the Starter Path at /start.",
    "- If the request mentions \"what next\" or \"what step next\", try to frame your answer as:",
    "  1) A small next step",
    "  2) A pointer to a relevant guide (URL)",
    "- If starterProgress is provided, you may refer to:",
    "  - which step they're on,",
    "  - which steps are done,",
    "  - and which would be a good next step.",
    "",
    "Always:",
    "- Give concrete next actions they can do in the next 24\U{2013}72 hours.",
    "- Keep answers tightly focused on their situation; do not dump long generic lectures."
  ]

  /** Lines joined by line feeds, as a multi-line template literal reads. */
  function JoinLines(lines: seq<string>): (r: string)
    ensures |lines| == 1 ==> r == lines[0]
    ensures |lines| > 1 ==> lines[0] + "\n" <= r
  {
    if lines == [] then ""
    else if |lines| == 1 then lines[0]
    else lines[0] + "\n" + JoinLines(lines[1..])
  }

  /** The persona prompt, after `.trim()` of its template literal. */
  function SystemPrompt(): string {
    JoinLines(PERSONA_LINES)
  }

  const CONTEXT_TAIL: string := "Use this context " + "only to tailor your answer; " + "do not repeat it verbatim."
  const PAGE_PREFIX: string := "User is currently on page: "
  const FALLBACK_REPLY: string := "Sorry, I couldn't generate a response right now."
  const MISCONFIGURED: string := "Server misconfigured: missing OPENAI_API_KEY"

  /** `event.body`: absent or empty, text JSON.parse rejects, or the parsed value. */
  datatype Body = NoBody | Unparsable | Parsed(value: JsValue)

  datatype Event = Event(httpMethod: string, body: Body)

  datatype Role = System | User

  /**
   * An entry of `messages`. The persona entry, `{ role: "system", content:
   * systemPrompt }`, is kept by name: RoleOf and ContentOf give its fields.
   */
  datatype ChatMessage = Persona | ChatMessage(role: Role, content: string)

  function RoleOf(m: ChatMessage): Role {
    if m.Persona? then System else m.role
  }

  function ContentOf(m: ChatMessage): string {
    if m.Persona? then SystemPrompt() else m.content
  }

  /** What the completion API call came to. */
  datatype Upstream =
    | Answered(content: Option<string>)  // ok; `choices[0].message.content`, if present
    | Failed(text: string)               // not ok; the response text
    | Threw                              // fetch or reading the response threw

  datatype ResponseBody =
    | ErrorBody(error: string)
    | ErrorDetail(error: string, detail: string)
    | ReplyBody(reply: string)

  datatype Response = Response(statusCode: int, body: ResponseBody)

  /**
   * What the handler does: it returns a response, having sent `request` to
   * the completion API if that is `Some`; or its promise rejects, when
   * `message` is truthy but not a string and `.trim()` throws, or when
   * `pageContext` cannot be converted to a string for the page line.
   */
  datatype Outcome =
    | Returned(request: Option<seq<ChatMessage>>, response: Response)
    | Rejected

  /** `!OPENAI_API_KEY` is false. */
  predicate HasApiKey(apiKey: Option<string>) {
    apiKey.Some? && apiKey.value != ""
  }

  /** `JSON.parse(event.body || "{}")`; None when it throws. */
  function ParseBody(body: Body): Option<JsValue> {
    match body
    case NoBody => Some(Obj(map[]))
    case Unparsable => None
    case Parsed(v) => Some(v)
  }

  /** `body || {}`. */
  function Fields(v: JsValue): JsValue {
    if Truthy(v) then v else Obj(map[])
  }

  /** `(message || "").trim()`; None where `.trim` is not a function of the value. */
  function UserMessage(message: JsValue): (r: Option<string>)
    ensures r.None? <==> Truthy(message) && !message.Str?
    ensures !Truthy(message) ==> r == Some("")
    ensures r.Some? ==> Trim(r.value) == r.value
    ensures message.Str? ==> r == Some(Trim(message.s))
  {
    if !Truthy(message) then Some(Trim(""))
    else if message.Str? then
      var t := Trim(message.s);
      assert Trim(t) == t by {
        if t != "" { TrimNoEdgeSpace(t); }
      }
      Some(t)
    else None
  }

  /**
   * The progress lines, present when `starterProgress` is a non-null object;
   * empty when building them throws, which the `catch` turns into "".
   */
  function ProgressSnippet(starterProgress: JsValue): string {
    if Truthy(starterProgress) && IsObjectType(starterProgress) then
      var percent := PercentLine(Field(starterProgress, "percent"));
      var done := DoneLine(Field(starterProgress, "doneSlugs"));
      var next := NextLine(Field(starterProgress, "nextSlug"));
      if percent.Some? && done.Some? && next.Some? then percent.value + done.value + next.value
      else ""
    else ""
  }

  /** None when `${percent}` throws. */
  function PercentLine(percent: JsValue): Option<string> {
    match ToText(percent)
    case None => None
    case Some(t) => Some("Starter Path progress: " + t + "% complete.\n")
  }

  /** "none" unless `doneSlugs` is a non-empty array; None when joining it throws. */
  function DoneLine(doneSlugs: JsValue): Option<string> {
    var slugs := if doneSlugs.Arr? && |doneSlugs.elems| > 0 then Join(doneSlugs.elems, ", ") else Some("none");
    match slugs
    case None => None
    case Some(t) => Some("Completed steps: " + t + ".\n")
  }

  /** "unknown" when `nextSlug` is falsy; None when `${nextSlug}` throws. */
  function NextLine(nextSlug: JsValue): Option<string> {
    var next := if Truthy(nextSlug) then ToText(nextSlug) else Some("unknown");
    match next
    case None => None
    case Some(t) => Some("Next suggested step: " + t + ".\n")
  }

  /** The three fields the progress lines print convert to strings without throwing. */
  predicate ProgressPrintable(starterProgress: JsValue) {
    && !ConversionThrows(Field(starterProgress, "percent"))
    && !(Field(starterProgress, "doneSlugs").Arr? && ConversionThrows(Field(starterProgress, "doneSlugs")))
    && !ConversionThrows(Field(starterProgress, "nextSlug"))
  }

  /**
   * The page line, present when `pageContext` is truthy; None when
   * `${pageContext}` throws, which no `try` around it catches.
   */
  function PageInfo(pageContext: JsValue): (r: Option<string>)
    ensures r.None? <==> ConversionThrows(pageContext)
  {
    if !Truthy(pageContext) then Some("")
    else
      match ToText(pageContext)
      case None => None
      case Some(t) => Some(PAGE_PREFIX + t + "\n")
  }

  /** `[pageInfo, contextSnippet, tail].join("").trim()`. */
  function ContextMessage(pageInfo: string, contextSnippet: string): string {
    Trim(pageInfo + contextSnippet + CONTEXT_TAIL)
  }

  /** The `messages` array sent to the completion API. */
  function Prompt(userMessage: string, contextMessage: string): seq<ChatMessage> {
    [Persona]
    + (if contextMessage != "" then [ChatMessage(System, contextMessage)] else [])
    + [ChatMessage(User, userMessage)]
  }

  /** The response for each outcome of the completion API call. */
  function ReplyFor(upstream: Upstream): (r: Response)
    ensures r.statusCode == 200 <==> upstream.Answered?
    ensures r.statusCode != 200 ==> r.statusCode == 500 && !r.body.ReplyBody?
    ensures upstream.Failed? ==> r.body == ErrorDetail("OpenAI API error", upstream.text)
    ensures upstream.Threw? ==> r.body == ErrorBody("Unexpected server error")
    // a successful call always yields a non-empty reply: the content, or the fallback when there is none
    ensures upstream.Answered? ==>
      && r.body.ReplyBody? && r.body.reply != ""
      && (r.body.reply == FALLBACK_REPLY <==> upstream.content.None? || upstream.content.value in {"", FALLBACK_REPLY})
    ensures upstream.Answered? ==>
      r.body == ReplyBody(if upstream.content.Some? && upstream.content.value != "" then upstream.content.value else FALLBACK_REPLY)
  {
    match upstream
    case Failed(text) => Response(500, ErrorDetail("OpenAI API error", text))
    case Threw => Response(500, ErrorBody("Unexpected server error"))
    case Answered(content) =>
      Response(200, ReplyBody(if content.Some? && content.value != "" then content.value else FALLBACK_REPLY))
  }

  /** The handler from the parsed (or defaulted) body on: message check, prompt, call, reply. */
  function HandleBody(fields: JsValue, upstream: Upstream): (r: Outcome)
    // a call is made only with a trimmed, non-empty user message last
    ensures r.Returned? && r.request.Some? ==>
      && |r.request.value| == 3
      && r.request.value[2].ChatMessage? && r.request.value[2].role == User
      && r.request.value[2].content != ""
      && Trim(r.request.value[2].content) == r.request.value[2].content
      && r.response == ReplyFor(upstream)
    ensures r.Returned? && r.request.None? ==> r.response == Response(400, ErrorBody("Missing 'message' field"))
    ensures r.Rejected? <==>
      || UserMessage(Field(fields, "message")).None?
      || (UserMessage(Field(fields, "message")) != Some("") && ConversionThrows(Field(fields, "pageContext")))
    ensures UserMessage(Field(fields, "message")) == Some("") ==> r.Returned? && r.request.None?
    ensures (UserMessage(Field(fields, "message")).Some? && UserMessage(Field(fields, "message")).value != ""
             && !ConversionThrows(Field(fields, "pageContext"))) ==>
      var m := UserMessage(Field(fields, "message")).value;
      var contextMessage := ContextMessage(PageInfo(Field(fields, "pageContext")).value, ProgressSnippet(Field(fields, "starterProgress")));
      r == Returned(Some(Prompt(m, contextMessage)), ReplyFor(upstream))
  {
    match UserMessage(Field(fields, "message"))
    case None => Rejected
    case Some(userMessage) =>
      if userMessage == "" then
        Returned(None, Response(400, ErrorBody("Missing 'message' field")))
      else
        match PageInfo(Field(fields, "pageContext"))
        case None => Rejected
        case Some(pageInfo) =>
          var contextMessage := ContextMessage(pageInfo, ProgressSnippet(Field(fields, "starterProgress")));
          PromptEndsWithUser(userMessage, Field(fields, "pageContext"), Field(fields, "starterProgress"));
          Returned(Some(Prompt(userMessage, contextMessage)), ReplyFor(upstream))
  }

  /** `exports.handler`. */
  function Handle(event: Event, apiKey: Option<string>, upstream: Upstream): (r: Outcome)
    // the checks, in order; none of them calls the completion API
    ensures event.httpMethod != "POST" ==> r == Returned(None, Response(405, ErrorBody("Method not allowed")))
    ensures event.httpMethod == "POST" && !HasApiKey(apiKey) ==>
      r == Returned(None, Response(500, ErrorBody(MISCONFIGURED)))
    ensures event.httpMethod == "POST" && HasApiKey(apiKey) && event.body.Unparsable? ==>
      r == Returned(None, Response(400, ErrorBody("Invalid JSON body")))
    ensures event.httpMethod == "POST" && HasApiKey(apiKey) && !event.body.Unparsable? ==>
      r == HandleBody(Fields(ParseBody(event.body).value), upstream)
    // a call is made only after every check passed, with a trimmed, non-empty user message last
    ensures r.Returned? && r.request.Some? ==>
      && event.httpMethod == "POST" && HasApiKey(apiKey) && !event.body.Unparsable?
      && |r.request.value| == 3
      && r.request.value[2].ChatMessage? && r.request.value[2].role == User
      && r.request.value[2].content != ""
      && Trim(r.request.value[2].content) == r.request.value[2].content
      && r.response == ReplyFor(upstream)
    // without a call the response is one of the three refusals (NoCallIgnoresUpstream: whatever the upstream)
    ensures r.Returned? && r.request.None? ==> r.response.statusCode in {400, 405, 500}
  {
    if event.httpMethod != "POST" then
      Returned(None, Response(405, ErrorBody("Method not allowed")))
    else if !HasApiKey(apiKey) then
      Returned(None, Response(500, ErrorBody(MISCONFIGURED)))
    else
      match ParseBody(event.body)
      case None => Returned(None, Response(400, ErrorBody("Invalid JSON body")))
      case Some(body) => HandleBody(Fields(body), upstream)
  }

  lemma PageInfoStart(pageContext: JsValue)
    requires !ConversionThrows(pageContext)
    ensures PageInfo(pageContext).value == "" || PageInfo(pageContext).value[0] == 'U'
  {
    if Truthy(pageContext) {
      var t := ToText(pageContext).value + "\n";
      assert PageInfo(pageContext).value == PAGE_PREFIX + t;
      assert (PAGE_PREFIX + t)[0] == PAGE_PREFIX[0];
    }
  }

  lemma SnippetStart(starterProgress: JsValue)
    ensures ProgressSnippet(starterProgress) == "" || ProgressSnippet(starterProgress)[0] == 'S'
  {
    if Truthy(starterProgress) && IsObjectType(starterProgress) {
      var line := PercentLine(Field(starterProgress, "percent"));
      if line.Some? && ProgressSnippet(starterProgress) != "" {
        assert line.value[0] == 'S';
        assert ProgressSnippet(starterProgress)[0] == line.value[0];
      }
    }
  }

  lemma TrimContext(page: string, snippet: string)
    requires page == "" || page[0] == 'U'
    requires snippet == "" || snippet[0] == 'S'
    ensures Trim(page + snippet + CONTEXT_TAIL) == page + snippet + CONTEXT_TAIL
    ensures page + snippet + CONTEXT_TAIL != ""
  {
    TailEdges();
    var s := page + snippet + CONTEXT_TAIL;
    assert s[|s| - 1] == CONTEXT_TAIL[|CONTEXT_TAIL| - 1];
    if page != [] {
      assert s[0] == page[0];
    } else if snippet != [] {
      assert s[0] == snippet[0];
    } else {
      assert s[0] == CONTEXT_TAIL[0];
    }
    TrimNoEdgeSpace(s);
  }

  /** The closing sentence starts with a letter and ends with a full stop. */
  lemma TailEdges()
    ensures |CONTEXT_TAIL| > 0 && CONTEXT_TAIL[0] == 'U' && CONTEXT_TAIL[|CONTEXT_TAIL| - 1] == '.'
  {
  }

  /** The context message is "page line, progress lines, fixed sentence" with nothing trimmed away. */
  lemma ContextUntrimmed(pageContext: JsValue, starterProgress: JsValue)
    requires !ConversionThrows(pageContext)
    ensures ContextMessage(PageInfo(pageContext).value, ProgressSnippet(starterProgress))
            == PageInfo(pageContext).value + ProgressSnippet(starterProgress) + CONTEXT_TAIL
    ensures ContextMessage(PageInfo(pageContext).value, ProgressSnippet(starterProgress)) != ""
  {
    var page, snippet := PageInfo(pageContext).value, ProgressSnippet(starterProgress);
    assert page == "" || page[0] == 'U' by {
      PageInfoStart(pageContext);
    }
    assert snippet == "" || snippet[0] == 'S' by {
      SnippetStart(starterProgress);
    }
    TrimContext(page, snippet);
  }

  /**
   * The context message is never empty, so the prompt always has exactly
   * three entries: persona, context, user message.
   */
  lemma PromptShape(userMessage: string, pageContext: JsValue, starterProgress: JsValue)
    requires !ConversionThrows(pageContext)
    ensures Prompt(userMessage, ContextMessage(PageInfo(pageContext).value, ProgressSnippet(starterProgress))) == [
      Persona,
      ChatMessage(System, PageInfo(pageContext).value + ProgressSnippet(starterProgress) + CONTEXT_TAIL),
      ChatMessage(User, userMessage)]
  {
    ContextUntrimmed(pageContext, starterProgress);
    PromptWithContext(userMessage, ContextMessage(PageInfo(pageContext).value, ProgressSnippet(starterProgress)));
  }

  /** With a non-empty context message, the prompt is persona, context, user message. */
  lemma PromptWithContext(userMessage: string, contextMessage: string)
    requires contextMessage != ""
    ensures Prompt(userMessage, contextMessage)
            == [Persona, ChatMessage(System, contextMessage), ChatMessage(User, userMessage)]
  {
  }

  /**
   * The page line is empty iff `pageContext` is falsy, starts with the
   * page prefix when it is truthy and converts, and is missing (the
   * handler throws) when the conversion throws.
   */
  lemma PageLinePresence(pageContext: JsValue)
    ensures PageInfo(pageContext) == Some("") <==> !Truthy(pageContext)
    ensures Truthy(pageContext) && !ConversionThrows(pageContext) ==> PAGE_PREFIX <= PageInfo(pageContext).value
    ensures ConversionThrows(pageContext) ==> Truthy(pageContext) && PageInfo(pageContext).None?
  {
    if Truthy(pageContext) && !ConversionThrows(pageContext) {
      assert |PageInfo(pageContext).value| >= |PAGE_PREFIX|;
    }
  }

  /**
   * The progress lines are there iff `starterProgress` is a non-null object
   * whose printed fields all convert; when one of them throws, the `catch`
   * leaves no progress lines at all.
   */
  lemma ProgressLinesPresence(starterProgress: JsValue)
    ensures ProgressSnippet(starterProgress) != "" <==>
      Truthy(starterProgress) && IsObjectType(starterProgress) && ProgressPrintable(starterProgress)
  {
    var d := Field(starterProgress, "doneSlugs");
    var n := Field(starterProgress, "nextSlug");
    assert DoneLine(d).None? <==> d.Arr? && ConversionThrows(d) by {
      if d.Arr? && |d.elems| == 0 {
        assert !ConversionThrows(d);
      }
    }
    assert NextLine(n).None? <==> ConversionThrows(n);
    if Truthy(starterProgress) && IsObjectType(starterProgress) && ProgressPrintable(starterProgress) {
      var line := PercentLine(Field(starterProgress, "percent")).value;
      assert line[0] == 'S';
      assert ProgressSnippet(starterProgress)[0] == line[0];
    }
  }

  /**
   * The progress lines fall back to "none" when `doneSlugs` is not a
   * non-empty array and to "unknown" when `nextSlug` is falsy; otherwise
   * they list the slugs and name the next one.
   */
  lemma ProgressLineFallbacks(doneSlugs: JsValue, nextSlug: JsValue)
    ensures !(doneSlugs.Arr? && |doneSlugs.elems| > 0) ==> DoneLine(doneSlugs) == Some("Completed steps: none.\n")
    ensures doneSlugs.Arr? && |doneSlugs.elems| > 0 && !ConversionThrows(doneSlugs) ==>
      DoneLine(doneSlugs) == Some("Completed steps: " + Join(doneSlugs.elems, ", ").value + ".\n")
    ensures !Truthy(nextSlug) ==> NextLine(nextSlug) == Some("Next suggested step: unknown.\n")
    ensures Truthy(nextSlug) && !ConversionThrows(nextSlug) ==>
      NextLine(nextSlug) == Some("Next suggested step: " + ToText(nextSlug).value + ".\n")
  {
    assert "Completed steps: " + "none" + ".\n" == "Completed steps: none.\n";
    assert "Next suggested step: " + "unknown" + ".\n" == "Next suggested step: unknown.\n";
  }

  /** An absent body is read as `{}`, which has no message. */
  lemma AbsentBodyIsEmptyObject(apiKey: Option<string>, upstream: Upstream)
    requires HasApiKey(apiKey)
    ensures Handle(Event("POST", NoBody), apiKey, upstream)
            == Handle(Event("POST", Parsed(Obj(map[]))), apiKey, upstream)
            == Returned(None, Response(400, ErrorBody("Missing 'message' field")))
  {
    var empty := Obj(map[]);
    assert ParseBody(NoBody) == Some(empty);
    assert Field(Fields(empty), "message") == Undefined;
    BlankMessageRefused(empty, apiKey, upstream);
  }

  /** A missing, empty or all-white-space message is refused with 400 before any call. */
  lemma BlankMessageRefused(body: JsValue, apiKey: Option<string>, upstream: Upstream)
    requires HasApiKey(apiKey)
    requires var m := Field(Fields(body), "message");
      !Truthy(m) || (m.Str? && forall k :: 0 <= k < |m.s| ==> IsSpace(m.s[k]))
    ensures Handle(Event("POST", Parsed(body)), apiKey, upstream)
            == Returned(None, Response(400, ErrorBody("Missing 'message' field")))
  {
    var m := Field(Fields(body), "message");
    if m.Str? {
      TrimEmptyIffAllSpace(m.s);
    }
  }

  /**
   * A string message with a non-space character, beside a `pageContext`
   * that converts to a string, reaches the completion API, trimmed, as the
   * last entry.
   */
  lemma MessageReachesUpstream(body: JsValue, apiKey: Option<string>, upstream: Upstream)
    requires HasApiKey(apiKey)
    requires var m := Field(Fields(body), "message");
      m.Str? && exists k :: 0 <= k < |m.s| && !IsSpace(m.s[k])
    requires !ConversionThrows(Field(Fields(body), "pageContext"))
    ensures var r := Handle(Event("POST", Parsed(body)), apiKey, upstream);
      && r.Returned? && r.request.Some?
      && r.request.value[2] == ChatMessage(User, Trim(Field(Fields(body), "message").s))
      && r.response == ReplyFor(upstream)
  {
    var fields := Fields(body);
    var m := Field(fields, "message");
    NonBlankTrim(m.s);
    PromptEndsWithUser(Trim(m.s), Field(fields, "pageContext"), Field(fields, "starterProgress"));
    HandlePassesBody(body, apiKey, upstream);
  }

  /**
   * With a usable message, a `pageContext` whose conversion throws (an
   * object with its own "toString" key) makes the handler's promise reject
   * before any call.
   */
  lemma UnprintablePageRejects(body: JsValue, apiKey: Option<string>, upstream: Upstream)
    requires HasApiKey(apiKey)
    requires var m := Field(Fields(body), "message");
      m.Str? && exists k :: 0 <= k < |m.s| && !IsSpace(m.s[k])
    requires ConversionThrows(Field(Fields(body), "pageContext"))
    ensures Handle(Event("POST", Parsed(body)), apiKey, upstream) == Rejected
  {
    NonBlankTrim(Field(Fields(body), "message").s);
    HandlePassesBody(body, apiKey, upstream);
  }

  /**
   * A progress object one of whose printed fields throws contributes no
   * progress lines: the context is the page line and the closing sentence.
   */
  lemma UnprintableProgressDropped(body: JsValue, apiKey: Option<string>, upstream: Upstream)
    requires HasApiKey(apiKey)
    requires var m := Field(Fields(body), "message");
      m.Str? && exists k :: 0 <= k < |m.s| && !IsSpace(m.s[k])
    requires !ConversionThrows(Field(Fields(body), "pageContext"))
    requires !ProgressPrintable(Field(Fields(body), "starterProgress"))
    ensures var r := Handle(Event("POST", Parsed(body)), apiKey, upstream);
      && r.Returned? && r.request.Some?
      && r.request.value[1] == ChatMessage(System, PageInfo(Field(Fields(body), "pageContext")).value + CONTEXT_TAIL)
  {
    var fields := Fields(body);
    var sp := Field(fields, "starterProgress");
    ProgressLinesPresence(sp);
    MessageReachesUpstream(body, apiKey, upstream);
    PromptShape(Trim(Field(fields, "message").s), Field(fields, "pageContext"), sp);
    assert PageInfo(Field(fields, "pageContext")).value + "" == PageInfo(Field(fields, "pageContext")).value;
  }

  /** `{"toString": 0}` as `percent`, or among `doneSlugs`, leaves no progress lines. */
  lemma OwnToStringDropsProgress()
    ensures ProgressSnippet(Obj(map["percent" := Obj(map["toString" := Num(0)])])) == ""
    ensures ProgressSnippet(Obj(map["doneSlugs" := Arr([Obj(map["toString" := Num(0)])])])) == ""
  {
    var bad := Obj(map["toString" := Num(0)]);
    assert Field(Obj(map["percent" := bad]), "percent") == bad;
    var slugs := Arr([bad]);
    assert Field(Obj(map["doneSlugs" := slugs]), "doneSlugs") == slugs;
    assert ConversionThrows(slugs) by {
      assert slugs.elems[0] == bad;
    }
    ProgressLinesPresence(Obj(map["percent" := bad]));
    ProgressLinesPresence(Obj(map["doneSlugs" := slugs]));
  }

  /** A parsed body, behind a POST with a key, goes to the field checks. */
  lemma HandlePassesBody(body: JsValue, apiKey: Option<string>, upstream: Upstream)
    requires HasApiKey(apiKey)
    ensures Handle(Event("POST", Parsed(body)), apiKey, upstream) == HandleBody(Fields(body), upstream)
  {
    assert ParseBody(Parsed(body)) == Some(body);
  }

  /**
   * Whether a call is made, and with which messages, does not depend on the
   * upstream; without a call, the whole outcome does not either.
   */
  lemma NoCallIgnoresUpstream(event: Event, apiKey: Option<string>, u1: Upstream, u2: Upstream)
    ensures Handle(event, apiKey, u1).Rejected? <==> Handle(event, apiKey, u2).Rejected?
    ensures Handle(event, apiKey, u1).Returned? ==>
      Handle(event, apiKey, u1).request == Handle(event, apiKey, u2).request
    ensures Handle(event, apiKey, u1).Returned? && Handle(event, apiKey, u1).request.None? ==>
      Handle(event, apiKey, u1) == Handle(event, apiKey, u2)
  {
    if event.httpMethod == "POST" && HasApiKey(apiKey) && !event.body.Unparsable? {
      var fields := Fields(ParseBody(event.body).value);
      var m := UserMessage(Field(fields, "message"));
      if m.Some? && m.value != "" && !ConversionThrows(Field(fields, "pageContext")) {
        assert HandleBody(fields, u1).request == HandleBody(fields, u2).request;
        assert HandleBody(fields, u1).request.Some?;
      }
    }
  }

  /** The prompt always has three entries, the user's message last. */
  lemma PromptEndsWithUser(userMessage: string, pageContext: JsValue, starterProgress: JsValue)
    requires !ConversionThrows(pageContext)
    ensures var p := Prompt(userMessage, ContextMessage(PageInfo(pageContext).value, ProgressSnippet(starterProgress)));
      |p| == 3 && p[2] == ChatMessage(User, userMessage)
  {
    ContextUntrimmed(pageContext, starterProgress);
    PromptWithContext(userMessage, ContextMessage(PageInfo(pageContext).value, ProgressSnippet(starterProgress)));
  }

  /** The parts of a body the handler reads: message, pageContext and three fields of starterProgress. */
  function Relevant(body: JsValue): seq<JsValue> {
    var fields := Fields(body);
    var progress := Field(fields, "starterProgress");
    [Field(fields, "message"), Field(fields, "pageContext"),
     Bool(Truthy(progress) && IsObjectType(progress)),
     Field(progress, "percent"), Field(progress, "doneSlugs"), Field(progress, "nextSlug")]
  }

  /** Two bodies that agree on those parts get the same outcome: every other field is ignored. */
  lemma OnlyRelevantFieldsMatter(httpMethod: string, b1: JsValue, b2: JsValue, apiKey: Option<string>, upstream: Upstream)
    requires Relevant(b1) == Relevant(b2)
    ensures Handle(Event(httpMethod, Parsed(b1)), apiKey, upstream) == Handle(Event(httpMethod, Parsed(b2)), apiKey, upstream)
  {
    if httpMethod == "POST" && HasApiKey(apiKey) {
      var r1, r2 := Relevant(b1), Relevant(b2);
      assert r1[0] == r2[0] && r1[1] == r2[1] && r1[2] == r2[2];
      assert r1[3] == r2[3] && r1[4] == r2[4] && r1[5] == r2[5];
      var f1, f2 := Fields(b1), Fields(b2);
      SnippetFromRelevant(Field(f1, "starterProgress"), Field(f2, "starterProgress"));
      HandleBodyFromRelevant(f1, f2, upstream);
      HandlePassesBody(b1, apiKey, upstream);
      HandlePassesBody(b2, apiKey, upstream);
    }
  }

  /** The progress lines read nothing of `starterProgress` but whether it is an object and three fields. */
  lemma SnippetFromRelevant(p1: JsValue, p2: JsValue)
    requires (Truthy(p1) && IsObjectType(p1)) == (Truthy(p2) && IsObjectType(p2))
    requires Field(p1, "percent") == Field(p2, "percent")
    requires Field(p1, "doneSlugs") == Field(p2, "doneSlugs")
    requires Field(p1, "nextSlug") == Field(p2, "nextSlug")
    ensures ProgressSnippet(p1) == ProgressSnippet(p2)
  {
  }

  /** The field checks and the prompt read only the message, the page and the progress lines. */
  lemma HandleBodyFromRelevant(f1: JsValue, f2: JsValue, upstream: Upstream)
    requires Field(f1, "message") == Field(f2, "message")
    requires Field(f1, "pageContext") == Field(f2, "pageContext")
    requires ProgressSnippet(Field(f1, "starterProgress")) == ProgressSnippet(Field(f2, "starterProgress"))
    ensures HandleBody(f1, upstream) == HandleBody(f2, upstream)
  {
  }

  /** Adding a field such as `userId`, `mode` or `messages` to the body changes nothing. */
  lemma ExtraTopLevelFieldIgnored(httpMethod: string, fields: map<string, JsValue>, name: string, value: JsValue,
                                  apiKey: Option<string>, upstream: Upstream)
    requires name !in {"message", "pageContext", "starterProgress"}
    ensures Handle(Event(httpMethod, Parsed(Obj(fields[name := value]))), apiKey, upstream)
         == Handle(Event(httpMethod, Parsed(Obj(fields))), apiKey, upstream)
  {
    OnlyRelevantFieldsMatter(httpMethod, Obj(fields[name := value]), Obj(fields), apiKey, upstream);
  }

  /** Adding a field such as `isComplete` or `totalSteps` to `starterProgress` changes nothing. */
  lemma ExtraProgressFieldIgnored(httpMethod: string, fields: map<string, JsValue>, progress: map<string, JsValue>,
                                  name: string, value: JsValue, apiKey: Option<string>, upstream: Upstream)
    requires name !in {"percent", "doneSlugs", "nextSlug"}
    ensures Handle(Event(httpMethod, Parsed(Obj(fields["starterProgress" := Obj(progress[name := value])]))), apiKey, upstream)
         == Handle(Event(httpMethod, Parsed(Obj(fields["starterProgress" := Obj(progress)]))), apiKey, upstream)
  {
    OnlyRelevantFieldsMatter(httpMethod, Obj(fields["starterProgress" := Obj(progress[name := value])]),
                             Obj(fields["starterProgress" := Obj(progress)]), apiKey, upstream);
  }
}

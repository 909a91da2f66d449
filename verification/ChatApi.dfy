/**
 * The `api/chat.js` handler: it checks the message list, picks the coach
 * persona's system prompt (with the project context embedded as JSON),
 * forwards the conversation to the completion service behind that prompt,
 * and answers with the reply text or a fixed apology.
 *
 * The completion call and `JSON.stringify` are inputs.
 */
module ChatApi {
  import opened Text
  import opened Json
  import opened Http

  /** The fields the handler reads from the request body; each may be missing. */
  datatype ChatBody = ChatBody(
    messages: Option<JValue>,
    persona: Option<string>,
    projectContext: Option<JValue>)

  const EngineerHead: string :=
    "You are an expert Engineering Coach specializing in blockchain development, smart contracts, and Web3 technologies. \n" +
    "\n" +
    "Your expertise includes:\n" +
    "- Solidity smart contract development\n" +
    "- Web3.js and ethers.js integration\n" +
    "- MetaMask wallet integration\n" +
    "- DeFi protocols and yield farming\n" +
    "- NFT development and standards\n" +
    "- Blockchain security best practices\n" +
    "- Gas optimization techniques\n" +
    "- Testing and deployment strategies\n" +
    "\n" +
    "Current project context: "

  const EngineerTail: string :=
    "\n" +
    "\n" +
    "Approach:\n" +
    "- Provide technical, actionable guidance\n" +
    "- Focus on code examples and implementation details\n" +
    "- Help debug issues and optimize solutions\n" +
    "- Suggest best practices and security considerations\n" +
    "- Be precise and technical in your responses\n" +
    "\n" +
    "Response style: Professional, technical, solution-oriented. Keep responses concise but comprehensive."

  const LifeCoachHead: string :=
    "You are a supportive Life Coach specializing in motivation, learning strategies, and personal development for developers and students.\n" +
    "\n" +
    "Your expertise includes:\n" +
    "- Motivation and goal-setting techniques\n" +
    "- Overcoming learning obstacles and imposter syndrome\n" +
    "- Building confidence and resilience\n" +
    "- Time management and productivity strategies\n" +
    "- Stress management and work-life balance\n" +
    "- Career development and networking\n" +
    "- Learning methodologies and retention strategies\n" +
    "\n" +
    "Current project context: "

  const LifeCoachTail: string :=
    "\n" +
    "\n" +
    "Approach:\n" +
    "- Provide emotional support and encouragement\n" +
    "- Help with motivation and mindset challenges\n" +
    "- Suggest learning strategies and study techniques\n" +
    "- Address confidence and imposter syndrome issues\n" +
    "- Offer perspective on challenges and setbacks\n" +
    "- Celebrate progress and achievements\n" +
    "\n" +
    "Response style: Warm, encouraging, empathetic. Focus on emotional support and learning strategies."

  const Apology: string := "Sorry, I could not generate a response."

  datatype Persona = Engineer | LifeCoach

  /**
   * `systemPrompts[persona] || systemPrompts.engineer` as written, with a
   * missing persona defaulting to `engineer`: only the exact key
   * `lifecoach` selects the life coach.
   */
  function PersonaOfAsWritten(persona: Option<string>): (p: Persona)
    ensures p == LifeCoach <==> persona == Some("lifecoach")
  {
    if persona == Some("lifecoach") then LifeCoach else Engineer
  }

  /**
   * The lookup the chat page's tabs need: the prompt table's `lifecoach`
   * key, and also `life`, the name the page sends for its life coach tab;
   * anything else falls back to the engineer.
   */
  function PersonaOf(persona: Option<string>): (p: Persona)
    ensures p == LifeCoach <==> persona == Some("lifecoach") || persona == Some("life")
    ensures PersonaOfAsWritten(persona) == LifeCoach ==> p == LifeCoach
  {
    if persona == Some("lifecoach") || persona == Some("life") then LifeCoach else Engineer
  }

  /** The persona's prompt around the context's JSON text. */
  function Head(p: Persona): string {
    if p == Engineer then EngineerHead else LifeCoachHead
  }

  function Tail(p: Persona): string {
    if p == Engineer then EngineerTail else LifeCoachTail
  }

  /** The persona's prompt with the serialised context in its slot. */
  function SystemPrompt(p: Persona, context: string): string {
    Head(p) + context + Tail(p)
  }

  /**
   * The context text sits between the persona's fixed head and tail, so
   * it can be read back from the prompt: the prompt carries it unaltered.
   */
  lemma ContextRecoverable(p: Persona, context: string)
    ensures var s := SystemPrompt(p, context);
            |s| == |Head(p)| + |context| + |Tail(p)|
            && s[..|Head(p)|] == Head(p)
            && s[|Head(p)|..|s| - |Tail(p)|] == context
            && s[|s| - |Tail(p)|..] == Tail(p)
  {
    Sandwich(Head(p), context, Tail(p));
  }

  /** Different contexts give different prompts for one persona. */
  lemma SystemPromptInjective(p: Persona, c1: string, c2: string)
    requires SystemPrompt(p, c1) == SystemPrompt(p, c2)
    ensures c1 == c2
  {
    ContextRecoverable(p, c1);
    ContextRecoverable(p, c2);
  }

  /** For one context the two personas never give the same prompt: their fixed texts differ in length. */
  lemma PersonasDiffer(context: string)
    ensures SystemPrompt(Engineer, context) != SystemPrompt(LifeCoach, context)
  {
    ContextRecoverable(Engineer, context);
    ContextRecoverable(LifeCoach, context);
    assert |EngineerHead| + |EngineerTail| != |LifeCoachHead| + |LifeCoachTail|;
  }

  /** The reply text: the completion's content when it is non-empty, the apology otherwise. */
  function ReplyText(content: Option<string>): (r: string)
    ensures r != ""
    ensures Truthy(content) ==> r == content.value
    ensures !Truthy(content) ==> r == Apology
  {
    OrElse(content, Apology)
  }

  /** The 500 body of the handler's catch-all. */
  function ChatServiceError(detail: Option<string>): JValue {
    var base := map["error" := JStr("AI service error")];
    JObj(if detail.Some? then base["detail" := JStr(detail.value)] else base)
  }

  /** What the handler answers once the completion call returned. */
  function Answer(upstream: Upstream): (r: Response)
    ensures upstream.Answered? && upstream.ok ==>
              r == Response(200, Some(JObj(map["text" := JStr(ReplyText(upstream.content))])))
    ensures upstream.Threw? ==> r == Response(500, Some(ChatServiceError(Some(upstream.message))))
    ensures upstream.Answered? && !upstream.ok ==>
              r == Response(500, Some(ChatServiceError(Some(UpstreamErrorMessage(upstream.status, upstream.statusText)))))
  {
    match upstream
    case Threw(_, message) => Response(500, Some(ChatServiceError(Some(message))))
    case Answered(ok, status, statusText, content) =>
      if !ok then Response(500, Some(ChatServiceError(Some(UpstreamErrorMessage(status, statusText)))))
      else Response(200, Some(JObj(map["text" := JStr(ReplyText(content))])))
  }

  /** The context defaults to the empty object. */
  function ContextOf(b: ChatBody): (v: JValue)
    ensures b.projectContext.None? ==> v == JObj(map[])
    ensures b.projectContext.Some? ==> v == b.projectContext.value
  {
    if b.projectContext.Some? then b.projectContext.value else JObj(map[])
  }

  /** Which persona lookup a handler uses: the table as written, or the corrected one. */
  datatype Lookup = AsWritten | Corrected

  function PersonaBy(lookup: Lookup, persona: Option<string>): Persona {
    match lookup
    case AsWritten => PersonaOfAsWritten(persona)
    case Corrected => PersonaOf(persona)
  }

  /** The handler's steps, with the persona lookup as a parameter. */
  function Respond(lookup: Lookup, req: Request<ChatBody>, upstream: Upstream, stringify: JValue -> string): (h: Handled)
    ensures req.verb == "OPTIONS" ==> h == Preflight
    ensures req.verb != "OPTIONS" && req.verb != "POST" ==> h == MethodNotAllowed
    ensures req.verb == "POST" && req.body.None? ==> h == Handled(Response(500, Some(ChatServiceError(None))), None)
    ensures req.verb == "POST" && req.body.Some? ==>
              var b := req.body.value;
              && (h.sent.None? <==> !(b.messages.Some? && b.messages.value.JArr?))
              && (h.sent.None? ==> h.response == Response(400, Some(ErrorBody("Messages array is required"))))
              && (h.sent.Some? ==>
                    && |h.sent.value| == 1 + |b.messages.value.items|
                    && h.sent.value[0] == Message("system", SystemPrompt(PersonaBy(lookup, b.persona), stringify(ContextOf(b))))
                    && h.sent.value[1..] == b.messages.value.items
                    && h.response == Answer(upstream))
  {
    match Dispatch(req.verb)
    case Some(early) => early
    case None =>
      match req.body
      case None => Handled(Response(500, Some(ChatServiceError(None))), None)
      case Some(b) =>
        if !(b.messages.Some? && b.messages.value.JArr?) then
          Handled(Response(400, Some(ErrorBody("Messages array is required"))), None)
        else
          var prompt := SystemPrompt(PersonaBy(lookup, b.persona), stringify(ContextOf(b)));
          Handled(Answer(upstream), Some([Message("system", prompt)] + b.messages.value.items))
  }

  /** The handler as written. A missing body makes the destructuring throw, which the catch-all reports. */
  function Handle(req: Request<ChatBody>, upstream: Upstream, stringify: JValue -> string): (h: Handled)
    ensures req.verb == "OPTIONS" ==> h == Preflight
    ensures req.verb != "OPTIONS" && req.verb != "POST" ==> h == MethodNotAllowed
    ensures req.verb == "POST" && req.body.None? ==> h == Handled(Response(500, Some(ChatServiceError(None))), None)
    ensures req.verb == "POST" && req.body.Some? ==>
              var b := req.body.value;
              && (h.sent.None? <==> !(b.messages.Some? && b.messages.value.JArr?))
              && (h.sent.None? ==> h.response == Response(400, Some(ErrorBody("Messages array is required"))))
              && (h.sent.Some? ==>
                    && |h.sent.value| == 1 + |b.messages.value.items|
                    && h.sent.value[0] == Message("system", SystemPrompt(PersonaOfAsWritten(b.persona), stringify(ContextOf(b))))
                    && h.sent.value[1..] == b.messages.value.items
                    && h.response == Answer(upstream))
  {
    Respond(AsWritten, req, upstream, stringify)
  }

  /**
   * The handler with the corrected persona lookup: it answers exactly as
   * the handler as written does and sends the same client messages; only
   * the system prompt's persona may differ.
   */
  function HandleCorrected(req: Request<ChatBody>, upstream: Upstream, stringify: JValue -> string): (h: Handled)
    ensures var w := Handle(req, upstream, stringify);
            && h.response == w.response
            && (h.sent.Some? <==> w.sent.Some?)
            && (h.sent.Some? ==>
                  && |h.sent.value| == |w.sent.value|
                  && h.sent.value[1..] == w.sent.value[1..]
                  && h.sent.value[0] == Message("system", SystemPrompt(PersonaOf(req.body.value.persona),
                                                                       stringify(ContextOf(req.body.value)))))
  {
    Respond(Corrected, req, upstream, stringify)
  }

  /** A successful call always answers 200 with non-empty text. */
  lemma SuccessHasText(req: Request<ChatBody>, upstream: Upstream, stringify: JValue -> string)
    requires upstream.Answered? && upstream.ok
    requires Handle(req, upstream, stringify).sent.Some?
    ensures var r := Handle(req, upstream, stringify).response;
            r.status == 200 && r.body.Some? && Get(r.body.value, "text").Some?
            && Get(r.body.value, "text").value.JStr? && Get(r.body.value, "text").value.s != ""
  {
    assert req.verb == "POST" && req.body.Some?;
    var text := ReplyText(upstream.content);
    assert Handle(req, upstream, stringify).response == Response(200, Some(JObj(map["text" := JStr(text)])));
  }

  /**
   * A request from the chat page's life coach tab (`persona: "life"`) is
   * answered behind the engineer's prompt, never the life coach's.
   */
  lemma LifeRequestGetsEngineerPrompt(req: Request<ChatBody>, upstream: Upstream, stringify: JValue -> string)
    requires req.verb == "POST" && req.body.Some? && req.body.value.persona == Some("life")
    requires req.body.value.messages.Some? && req.body.value.messages.value.JArr?
    ensures var h := Handle(req, upstream, stringify);
            && h.sent.Some?
            && h.sent.value[0] == Message("system", SystemPrompt(Engineer, stringify(ContextOf(req.body.value))))
            && h.sent.value[0] != Message("system", SystemPrompt(LifeCoach, stringify(ContextOf(req.body.value))))
  {
    var c := stringify(ContextOf(req.body.value));
    assert PersonaOfAsWritten(Some("life")) == Engineer;
    assert Handle(req, upstream, stringify).sent.value[0] == Message("system", SystemPrompt(Engineer, c));
    PersonasDiffer(c);
    MessageInjective("system", SystemPrompt(Engineer, c), SystemPrompt(LifeCoach, c));
  }

  /** With the corrected lookup, the same request is sent behind the life coach's prompt. */
  lemma CorrectedLifeRequestGetsLifeCoachPrompt(req: Request<ChatBody>, upstream: Upstream, stringify: JValue -> string)
    requires req.verb == "POST" && req.body.Some? && req.body.value.persona == Some("life")
    requires req.body.value.messages.Some? && req.body.value.messages.value.JArr?
    ensures var h := HandleCorrected(req, upstream, stringify);
            && h.sent.Some?
            && h.sent.value[0] == Message("system", SystemPrompt(LifeCoach, stringify(ContextOf(req.body.value))))
            && h.sent.value[0] != Handle(req, upstream, stringify).sent.value[0]
  {
    var c := stringify(ContextOf(req.body.value));
    LifeRequestGetsEngineerPrompt(req, upstream, stringify);
    PersonasDiffer(c);
    MessageInjective("system", SystemPrompt(Engineer, c), SystemPrompt(LifeCoach, c));
  }
}

/**
 * The `api/plan.js` handler: method dispatch, request-body defaults, the
 * offline plans when no API key is configured, the prompt it sends to
 * the completion service, and what it makes of the answer (milestones
 * forced open, unparseable text reported as a bad format).
 *
 * The key, `Math.random()`, the completion call and `JSON.parse` are inputs.
 */
module PlanApi {
  import opened Text
  import opened Json
  import opened Progress
  import opened Catalog
  import opened Http

  /** The fields the handler reads from the request body; each may be missing. */
  datatype PlanBody = PlanBody(
    goal: Option<string>,
    experience: Option<string>,
    stack: Option<string>,
    generateNew: Option<bool>)

  /** The body after destructuring with defaults (a default applies only to a missing field). */
  datatype PlanParams = PlanParams(goal: string, experience: string, stack: string, generateNew: bool)

  function WithDefaults(b: PlanBody): (p: PlanParams)
    ensures b.goal.None? ==> p.goal == ""
    ensures b.experience.None? ==> p.experience == "beginner"
    ensures b.stack.None? ==> p.stack == ""
    ensures b.generateNew.None? ==> !p.generateNew
    ensures b.goal.Some? ==> p.goal == b.goal.value
    ensures b.experience.Some? ==> p.experience == b.experience.value
    ensures b.stack.Some? ==> p.stack == b.stack.value
    ensures b.generateNew.Some? ==> p.generateNew == b.generateNew.value
  {
    PlanParams(
      if b.goal.Some? then b.goal.value else "",
      if b.experience.Some? then b.experience.value else "beginner",
      if b.stack.Some? then b.stack.value else "",
      if b.generateNew.Some? then b.generateNew.value else false)
  }

  /** `!process.env.OPENAI_API_KEY` is false: a non-empty key is set. */
  predicate HasKey(apiKey: Option<string>) {
    Truthy(apiKey)
  }

  // ---------------------------------------------------------------------------
  // Offline plans
  // ---------------------------------------------------------------------------

  /** `Math.floor(Math.random() * mockProjects.length)`: the whole part of `3 * random`. */
  function MockIndex(random: real): (i: nat)
    requires 0.0 <= random < 1.0
    ensures i < |MockProjects|
    ensures i as real <= random * 3.0 < i as real + 1.0
  {
    if random * 3.0 < 1.0 then 0 else if random * 3.0 < 2.0 then 1 else 2
  }

  // ---------------------------------------------------------------------------
  // Prompts
  // ---------------------------------------------------------------------------

  const SystemPrompt: string :=
    "You are an expert project generator for blockchain development learning. Create a complete project plan tailored for coding bootcamp students and self-taught developers.\n" +
    "\n" +
    "Generate a project that:\n" +
    "- Is achievable in 2-4 weeks\n" +
    "- Teaches real blockchain/Web3 skills\n" +
    "- Has 6 specific, actionable milestones\n" +
    "- Includes smart contract development\n" +
    "- Has a clear portfolio value\n" +
    "- Is beginner-friendly but impressive\n" +
    "\n" +
    "Return JSON format:\n" +
    "{\n" +
    "  \"title\": \"Project Name\",\n" +
    "  \"description\": \"Brief project description\",\n" +
    "  \"milestones\": [\n" +
    "    {\n" +
    "      \"title\": \"Milestone title\",\n" +
    "      \"description\": \"What the user will learn/do\",\n" +
    "      \"complete\": false\n" +
    "    }\n" +
    "  ],\n" +
    "  \"learningGoals\": [\n" +
    "    \"Specific learning objective 1\",\n" +
    "    \"Specific learning objective 2\",\n" +
    "    \"Specific learning objective 3\",\n" +
    "    \"Specific learning objective 4\"\n" +
    "  ],\n" +
    "  \"skillsToMaster\": [\n" +
    "    \"Technology/Skill 1\",\n" +
    "    \"Technology/Skill 2\", \n" +
    "    \"Technology/Skill 3\",\n" +
    "    \"Technology/Skill 4\",\n" +
    "    \"Technology/Skill 5\"\n" +
    "  ]\n" +
    "}"

  const FocusPrefix: string := "Focus on: "
  const DefaultFocus: string := "Choose " + "an engaging project that teaches valuable skills."
  const Uniqueness: string :=
    "Make it unique and different from common projects like voting apps, NFT marketplaces, or DeFi protocols."

  /** The goal sentence: `Focus on: <goal>` for a non-empty goal, the default sentence otherwise. */
  function FocusClause(goal: string): (r: string)
    ensures goal != "" ==> r == FocusPrefix + goal
    ensures goal == "" ==> r == DefaultFocus
  {
    if goal != "" then FocusPrefix + goal else DefaultFocus
  }

  function Flavour(generateNew: bool): string {
    if generateNew then "completely new and different" else "tailored"
  }

  function UserPromptLead(experience: string, generateNew: bool): string {
    "Generate a " + Flavour(generateNew) + " blockchain project for " + experience + " developers. "
  }

  function UserPromptTail(generateNew: bool): string {
    " " + (if generateNew then Uniqueness else "")
  }

  /** The user message of the completion request. */
  function UserPrompt(goal: string, experience: string, generateNew: bool): string {
    UserPromptLead(experience, generateNew) + FocusClause(goal) + UserPromptTail(generateNew)
  }

  /** The uniqueness sentence closes the prompt exactly when a new plan is asked for. */
  lemma UniquenessIff(goal: string, experience: string, generateNew: bool)
    ensures EndsWith(UserPrompt(goal, experience, generateNew), Uniqueness) <==> generateNew
  {
    var head := UserPromptLead(experience, generateNew) + FocusClause(goal);
    if generateNew {
      EndsWithAppended(head, " ", Uniqueness);
    } else {
      var p := head + " ";
      assert p[|p| - 1] == ' ';
      assert Uniqueness[|Uniqueness| - 1] == '.';
      NotEndsWithLast(p, Uniqueness);
    }
  }

  lemma SplitEqual(a: string, m1: string, b1: string, m2: string, b2: string)
    requires a + m1 + b1 == a + m2 + b2 && |b1| == |b2|
    ensures m1 == m2
  {
    var s := a + m1 + b1;
    assert |m1| == |m2|;
    assert m1 == s[|a|..|a| + |m1|];
    assert m2 == (a + m2 + b2)[|a|..|a| + |m2|];
  }

  lemma DefaultFocusIsNoFocus(g: string)
    ensures FocusPrefix + g != DefaultFocus
  {
    assert (FocusPrefix + g)[0] == 'F';
    assert DefaultFocus[0] == 'C';
  }

  /**
   * The prompt carries the goal and the "new plan" flag faithfully: for a
   * given experience level, different (goal, generateNew) pairs give
   * different prompts.
   */
  lemma UserPromptInjective(g1: string, g2: string, experience: string, n1: bool, n2: bool)
    requires UserPrompt(g1, experience, n1) == UserPrompt(g2, experience, n2)
    ensures g1 == g2 && n1 == n2
  {
    var p := UserPrompt(g1, experience, n1);
    assert p == UserPromptLead(experience, n1) + FocusClause(g1) + UserPromptTail(n1);
    assert UserPrompt(g2, experience, n2) == UserPromptLead(experience, n2) + FocusClause(g2) + UserPromptTail(n2);
    assert p[11] == Flavour(n1)[0];
    assert UserPrompt(g2, experience, n2)[11] == Flavour(n2)[0];
    assert n1 == n2;
    SplitEqual(UserPromptLead(experience, n1), FocusClause(g1), UserPromptTail(n1), FocusClause(g2), UserPromptTail(n2));
    if g1 != "" && g2 != "" {
      assert g1 == (FocusPrefix + g1)[|FocusPrefix|..];
      assert g2 == (FocusPrefix + g2)[|FocusPrefix|..];
    } else if g1 != "" && g2 == "" {
      DefaultFocusIsNoFocus(g1);
    } else if g1 == "" && g2 != "" {
      DefaultFocusIsNoFocus(g2);
    }
  }

  // ---------------------------------------------------------------------------
  // The completion's answer
  // ---------------------------------------------------------------------------

  /** `{ ...m, complete: false }` */
  function ForceOpen(m: JValue): (r: JValue)
    ensures r.JObj? && "complete" in r.fields && r.fields["complete"] == JBool(false)
    ensures forall k :: k != "complete" ==> (k in r.fields <==> k in Spread(m))
    ensures forall k :: k != "complete" && k in Spread(m) ==> r.fields[k] == Spread(m)[k]
  {
    JObj(Spread(m)["complete" := JBool(false)])
  }

  /** `milestones.map(m => ({ ...m, complete: false }))` */
  function ForceOpenAll(items: seq<JValue>): (r: seq<JValue>)
    ensures |r| == |items|
    ensures forall i :: 0 <= i < |items| ==> r[i] == ForceOpen(items[i])
  {
    seq(|items|, i requires 0 <= i < |items| => ForceOpen(items[i]))
  }

  /** A well-formed milestone comes out of the normalisation as itself, reopened. */
  lemma ForceOpenReopens(m: Milestone)
    ensures MilestoneFromJson(ForceOpen(MilestoneJson(m))) == Some(m.(complete := false))
  {
    var r := ForceOpen(MilestoneJson(m));
    assert Get(r, "title") == Some(JStr(m.title));
    assert Get(r, "description") == Some(JStr(m.description));
  }

  /**
   * `if (json.milestones) json.milestones = json.milestones.map(...)`:
   * `None` when that throws — reading a property of `null`, or calling
   * `map` on a truthy value that is not an array.
   */
  function NormaliseMilestones(json: JValue): (r: Option<JValue>)
    ensures json.JNull? ==> r.None?
    ensures json.JObj? && "milestones" in json.fields && json.fields["milestones"].JArr? ==>
              var items := json.fields["milestones"].items;
              && r.Some? && r.value.JObj?
              && r.value.fields.Keys == json.fields.Keys
              && (forall k :: k in json.fields && k != "milestones" ==> r.value.fields[k] == json.fields[k])
              && r.value.fields["milestones"].JArr?
              && |r.value.fields["milestones"].items| == |items|
              && r.value.fields["milestones"].items == ForceOpenAll(items)
    ensures (json.JObj? && "milestones" in json.fields && IsTruthy(json.fields["milestones"]) &&
             !json.fields["milestones"].JArr?) ==> r.None?
    ensures !json.JNull? && !(json.JObj? && "milestones" in json.fields && IsTruthy(json.fields["milestones"])) ==>
              r == Some(json)
  {
    match json
    case JNull => None
    case JObj(fields) =>
      if "milestones" in fields && IsTruthy(fields["milestones"]) then
        match fields["milestones"]
        case JArr(items) =>
          Some(JObj(fields["milestones" := JArr(ForceOpenAll(items))]))
        case _ => None
      else Some(json)
    case _ => Some(json)
  }

  /** Every milestone in a normalised answer is an object with `complete: false`. */
  lemma NormalisedMilestonesOpen(json: JValue)
    requires NormaliseMilestones(json).Some?
    requires Get(NormaliseMilestones(json).value, "milestones").Some?
    requires Get(NormaliseMilestones(json).value, "milestones").value.JArr?
    ensures var items := Get(NormaliseMilestones(json).value, "milestones").value.items;
            forall i :: 0 <= i < |items| ==> items[i].JObj? && items[i].fields["complete"] == JBool(false)
  {
  }

  /** The 500 body of the handler's catch-all. */
  function ServiceError(errorType: string, detail: Option<string>, apiKey: Option<string>): JValue {
    var keyLength := if HasKey(apiKey) then |apiKey.value| else 0;
    var base := map[
      "error" := JStr("AI service error"),
      "hasApiKey" := JBool(HasKey(apiKey)),
      "apiKeyLength" := JNum(keyLength),
      "errorType" := JStr(errorType)];
    JObj(if detail.Some? then base["detail" := JStr(detail.value)] else base)
  }

  /** The completion content, or `'{}'` when it is missing or empty. */
  function ContentOrEmptyObject(content: Option<string>): (r: string)
    ensures Truthy(content) ==> r == content.value
    ensures !Truthy(content) ==> r == "{}"
  {
    OrElse(content, "{}")
  }

  /** A response whose `milestones`, when it is a list, holds only objects marked not done. */
  predicate MilestonesOpen(r: Response) {
    r.body.Some? && Get(r.body.value, "milestones").Some? && Get(r.body.value, "milestones").value.JArr? ==>
      var items := Get(r.body.value, "milestones").value.items;
      forall i :: 0 <= i < |items| ==> items[i].JObj? && "complete" in items[i].fields && items[i].fields["complete"] == JBool(false)
  }

  /**
   * What the handler answers once the completion call returned: a failed
   * or non-ok call ends in the catch-all's 500, content that does not
   * parse or has non-list milestones in the bad-format 500, and anything
   * else in a 200 with the normalised answer, every milestone reopened.
   */
  function Answer(upstream: Upstream, apiKey: Option<string>, parse: string -> Option<JValue>): (r: Response)
    ensures upstream.Threw? || !upstream.ok ==>
              && r.status == 500 && r.body.Some?
              && Get(r.body.value, "error") == Some(JStr("AI service error"))
              && Get(r.body.value, "hasApiKey") == Some(JBool(HasKey(apiKey)))
    ensures upstream.Answered? && upstream.ok && parse(ContentOrEmptyObject(upstream.content)).None? ==>
              r == Response(500, Some(ErrorBody("Invalid response format")))
    ensures upstream.Answered? && upstream.ok && parse(ContentOrEmptyObject(upstream.content)).Some? ==>
              var n := NormaliseMilestones(parse(ContentOrEmptyObject(upstream.content)).value);
              && (n.None? ==> r == Response(500, Some(ErrorBody("Invalid response format"))))
              && (n.Some? ==> r == Response(200, Some(n.value)))
    ensures r.status == 200 ==> r.body.Some? && MilestonesOpen(r)
  {
    match upstream
    case Threw(errorType, message) => Response(500, Some(ServiceError(errorType, Some(message), apiKey)))
    case Answered(ok, status, statusText, content) =>
      if !ok then Response(500, Some(ServiceError("Error", Some(UpstreamErrorMessage(status, statusText)), apiKey)))
      else
        match parse(ContentOrEmptyObject(content))
        case None => Response(500, Some(ErrorBody("Invalid response format")))
        case Some(json) =>
          match NormaliseMilestones(json)
          case None => Response(500, Some(ErrorBody("Invalid response format")))
          case Some(normalised) => Response(200, Some(normalised))
  }

  /** The two messages of the completion request. */
  function PlanMessages(p: PlanParams): seq<JValue> {
    [Message("system", SystemPrompt), Message("user", UserPrompt(p.goal, p.experience, p.generateNew))]
  }

  /** The handler. A missing body makes the destructuring throw, which the catch-all reports. */
  function Handle(req: Request<PlanBody>, apiKey: Option<string>, random: real, upstream: Upstream,
                  parse: string -> Option<JValue>): (h: Handled)
    requires 0.0 <= random < 1.0
    ensures req.verb == "OPTIONS" ==> h == Preflight
    ensures req.verb != "OPTIONS" && req.verb != "POST" ==> h == MethodNotAllowed
    ensures req.verb == "POST" && req.body.None? ==>
              h == Handled(Response(500, Some(ServiceError("TypeError", None, apiKey))), None)
    ensures req.verb == "POST" && req.body.Some? && !HasKey(apiKey) ==>
              && h.sent.None? && h.response.status == 200
              && h.response.body == Some(ProjectJson(MockProject(MockIndex(random))))
              && FreshPlan(MockProject(MockIndex(random)))
    ensures req.verb == "POST" && req.body.Some? && HasKey(apiKey) ==>
              h.sent == Some(PlanMessages(WithDefaults(req.body.value))) && h.response == Answer(upstream, apiKey, parse)
    ensures h.response.status in {200, 405, 500}
  {
    match Dispatch(req.verb)
    case Some(early) => early
    case None =>
      match req.body
      case None => Handled(Response(500, Some(ServiceError("TypeError", None, apiKey))), None)
      case Some(body) =>
        var p := WithDefaults(body);
        if !HasKey(apiKey) then
          var i := MockIndex(random);
          Handled(Response(200, Some(ProjectJson(MockProject(i)))), None)
        else
          Handled(Answer(upstream, apiKey, parse), Some(PlanMessages(p)))
  }

  /**
   * Every plan the handler answers with — offline or generated — lists
   * its milestones as not done.
   */
  lemma PlansStartOpen(req: Request<PlanBody>, apiKey: Option<string>, random: real, upstream: Upstream,
                       parse: string -> Option<JValue>)
    requires 0.0 <= random < 1.0
    requires req.verb == "POST"
    ensures var h := Handle(req, apiKey, random, upstream, parse);
            h.response.status == 200 ==> MilestonesOpen(h.response)
  {
    var h := Handle(req, apiKey, random, upstream, parse);
    if req.body.Some? && !HasKey(apiKey) {
      var p := MockProject(MockIndex(random));
      var items := MilestonesJson(p.milestones).items;
      assert Get(h.response.body.value, "milestones") == Some(MilestonesJson(p.milestones));
      forall i | 0 <= i < |items|
        ensures items[i].JObj? && "complete" in items[i].fields && items[i].fields["complete"] == JBool(false)
      {
        assert items[i] == MilestoneJson(p.milestones[i]);
      }
    }
  }

  /** With a key, an answer that is no JSON at all, or whose milestones are not a list, is reported as a bad format. */
  lemma BadFormatAnswers(req: Request<PlanBody>, apiKey: Option<string>, random: real, upstream: Upstream,
                         parse: string -> Option<JValue>)
    requires 0.0 <= random < 1.0
    requires req.verb == "POST" && req.body.Some? && HasKey(apiKey)
    requires upstream.Answered? && upstream.ok
    requires parse(ContentOrEmptyObject(upstream.content)).None?
             || NormaliseMilestones(parse(ContentOrEmptyObject(upstream.content)).value).None?
    ensures Handle(req, apiKey, random, upstream, parse).response == Response(500, Some(ErrorBody("Invalid response format")))
  {
  }

  /** With a key, a failed or non-ok completion call always ends in the catch-all's 500. */
  lemma UpstreamFailureIs500(req: Request<PlanBody>, apiKey: Option<string>, random: real, upstream: Upstream,
                             parse: string -> Option<JValue>)
    requires 0.0 <= random < 1.0
    requires req.verb == "POST" && req.body.Some? && HasKey(apiKey)
    requires upstream.Threw? || !upstream.ok
    ensures var r := Handle(req, apiKey, random, upstream, parse).response;
            r.status == 500 && r.body.Some? && Get(r.body.value, "error") == Some(JStr("AI service error"))
  {
  }
}

/**
 * The project setup page's refresh throttle: a user-initiated refresh is
 * refused within 10 000 ms of the last accepted one and after 10 accepted
 * refreshes in a session; an accepted one starts a 10-second countdown
 * that a once-per-second timer runs down. The generated plan replaces
 * the shown one only when it has a title, a description and milestones.
 *
 * The clock (`Date.now()`), the plan generator and the countdown timer
 * are inputs: a time stamp, an optional result, and explicit `Tick` steps.
 */
module ProjectSetup {
  import opened Text
  import opened Progress
  import opened Catalog

  /** Minimum gap between two accepted user refreshes, in milliseconds. */
  const CooldownMs: int := 10000
  /** Accepted user refreshes per session. */
  const MaxRefreshes: nat := 10
  /** The countdown an accepted refresh starts, in seconds (ticks). */
  const CooldownSeconds: nat := 10

  const DefaultGoals: seq<string> :=
    [ "Master Blockchain Development", "Learn Smart Contract Design",
      "Understand DApp Architecture", "Build Real-World Project" ]
  const DefaultSkills: seq<string> := [ "Solidity", "Web3.js", "React", "Ethereum", "MetaMask" ]

  /** What `generateProject` resolves to; every field may be missing (an `{ error }` answer has none). */
  datatype Generated = Generated(
    title: Option<string>,
    description: Option<string>,
    milestones: Option<seq<Milestone>>,
    learningGoals: Option<seq<string>>,
    skillsToMaster: Option<seq<string>>)

  datatype Setup = Setup(
    loading: bool,
    lastRefreshTime: int,
    refreshCount: nat,
    cooldown: nat,
    current: Project)

  /** The page as it mounts. */
  const Initial: Setup := Setup(false, 0, 0, 0, VotingApp)

  /** A generated plan is usable when title and description are non-empty and milestones are present (an empty list counts). */
  predicate Usable(g: Generated) {
    Truthy(g.title) && Truthy(g.description) && g.milestones.Some?
  }

  /**
   * The plan shown after a generation attempt: the generated one when it
   * is usable (with default goals and skills filling in missing lists),
   * otherwise the current one; a rejected generation (`None`) changes nothing.
   */
  function Adopt(current: Project, result: Option<Generated>): (r: Project)
    ensures result.None? || !Usable(result.value) ==> r == current
    ensures result.Some? && Usable(result.value) ==>
              && r.title == result.value.title.value
              && r.description == result.value.description.value
              && r.milestones == result.value.milestones.value
              && (result.value.learningGoals.Some? ==> r.learningGoals == result.value.learningGoals.value)
              && (result.value.learningGoals.None? ==> r.learningGoals == DefaultGoals)
              && (result.value.skillsToMaster.Some? ==> r.skillsToMaster == result.value.skillsToMaster.value)
              && (result.value.skillsToMaster.None? ==> r.skillsToMaster == DefaultSkills)
  {
    match result
    case None => current
    case Some(g) =>
      if Usable(g) then
        Project(g.title.value, g.description.value, g.milestones.value,
                if g.learningGoals.Some? then g.learningGoals.value else DefaultGoals,
                if g.skillsToMaster.Some? then g.skillsToMaster.value else DefaultSkills)
      else current
  }

  /** A user-initiated refresh that the throttle turns away. */
  predicate Throttled(s: Setup, now: int, userInitiated: bool) {
    userInitiated && (now - s.lastRefreshTime < CooldownMs || s.refreshCount >= MaxRefreshes)
  }

  /**
   * `loadNewProject`: a throttled call changes nothing; otherwise a
   * user-initiated call records the time, counts the refresh and starts
   * the countdown before the plan is generated, and every accepted call
   * ends with loading off and the plan adopted.
   */
  function LoadNewProject(s: Setup, now: int, userInitiated: bool, result: Option<Generated>): (r: Setup)
    ensures Throttled(s, now, userInitiated) ==> r == s
    ensures !Throttled(s, now, userInitiated) ==> !r.loading && r.current == Adopt(s.current, result)
    ensures !Throttled(s, now, userInitiated) && userInitiated ==>
              r.lastRefreshTime == now && r.refreshCount == s.refreshCount + 1 && r.cooldown == CooldownSeconds
    ensures !userInitiated ==>
              r.lastRefreshTime == s.lastRefreshTime && r.refreshCount == s.refreshCount && r.cooldown == s.cooldown
  {
    if Throttled(s, now, userInitiated) then s
    else
      var counted := if userInitiated then s.(lastRefreshTime := now, refreshCount := s.refreshCount + 1, cooldown := CooldownSeconds) else s;
      counted.(loading := false, current := Adopt(s.current, result))
  }

  /** The throttle's bookkeeping does not depend on what the generator returned. */
  lemma CountersIgnoreResult(s: Setup, now: int, userInitiated: bool, a: Option<Generated>, b: Option<Generated>)
    ensures var ra := LoadNewProject(s, now, userInitiated, a);
            var rb := LoadNewProject(s, now, userInitiated, b);
            ra.lastRefreshTime == rb.lastRefreshTime && ra.refreshCount == rb.refreshCount && ra.cooldown == rb.cooldown
  {
  }

  /** One second of the countdown: it only runs while positive. */
  function Tick(s: Setup): (r: Setup)
    ensures s.cooldown > 0 ==> r.cooldown == s.cooldown - 1
    ensures s.cooldown == 0 ==> r.cooldown == 0
    ensures r.(cooldown := s.cooldown) == s
  {
    if s.cooldown > 0 then s.(cooldown := s.cooldown - 1) else s
  }

  // ---------------------------------------------------------------------------
  // The refresh button
  // ---------------------------------------------------------------------------

  function RefreshDisabled(s: Setup): bool {
    s.loading || s.refreshCount >= MaxRefreshes || s.cooldown > 0
  }

  datatype Label = Generating | LimitReached | Wait(seconds: nat) | GenerateNew

  /** The button caption: loading wins over the limit, the limit over the countdown. */
  function RefreshLabel(s: Setup): (l: Label)
    ensures s.loading ==> l == Generating
    ensures !s.loading && s.refreshCount >= MaxRefreshes ==> l == LimitReached
    ensures !s.loading && s.refreshCount < MaxRefreshes && s.cooldown > 0 ==> l == Wait(s.cooldown)
  {
    if s.loading then Generating
    else if s.refreshCount >= MaxRefreshes then LimitReached
    else if s.cooldown > 0 then Wait(s.cooldown)
    else GenerateNew
  }

  /** The caption's text; the hourglass marks the countdown and nothing else. */
  function LabelText(l: Label): (r: string)
    ensures StartsWith(r, Hourglass) <==> l.Wait?
  {
    var r := match l
      case Generating => "Generating..."
      case LimitReached => "\U{1F6AB} Limit Reached"
      case Wait(n) => Hourglass + " Wait " + NatToString(n) + "s"
      case GenerateNew => "\U{1F504} Generate New Project";
    StartsWithFirstChar(r, Hourglass);
    r
  }

  /** Distinct button states show distinct captions: the countdown shows its exact number of seconds. */
  lemma LabelTextInjective(a: Label, b: Label)
    ensures LabelText(a) == LabelText(b) <==> a == b
  {
    var ta, tb := LabelText(a), LabelText(b);
    if ta == tb {
      if a.Wait? && b.Wait? {
        var pre := Hourglass + " Wait ";
        assert ta == pre + NatToString(a.seconds) + "s";
        assert tb == pre + NatToString(b.seconds) + "s";
        assert ta[|pre|..|ta| - 1] == NatToString(a.seconds);
        assert tb[|pre|..|tb| - 1] == NatToString(b.seconds);
        NatToStringInjective(a.seconds, b.seconds);
      } else if !a.Wait? && !b.Wait? {
        assert ta[0] == tb[0];
      }
    }
  }

  /** The button's tooltip: the limit wins over the countdown. */
  function RefreshHint(s: Setup): (r: string)
    ensures s.refreshCount >= MaxRefreshes ==> r == "Maximum refreshes reached for this session"
    ensures s.refreshCount < MaxRefreshes && s.cooldown > 0 ==>
              r == "Please wait " + NatToString(s.cooldown) + "s before refreshing again"
    ensures s.refreshCount < MaxRefreshes && s.cooldown == 0 ==> r == "Generate a new random project"
  {
    if s.refreshCount >= MaxRefreshes then "Maximum refreshes reached for this session"
    else if s.cooldown > 0 then "Please wait " + NatToString(s.cooldown) + "s before refreshing again"
    else "Generate a new random project"
  }

  /** The button offers "Generate New Project" exactly when it is enabled. */
  lemma LabelShowsEnabled(s: Setup)
    ensures RefreshLabel(s) == GenerateNew <==> !RefreshDisabled(s)
  {
  }

  /** Outside a load, the tooltip offers a new project exactly when the button is enabled. */
  lemma HintShowsEnabled(s: Setup)
    requires !s.loading
    ensures RefreshHint(s) == "Generate a new random project" <==> !RefreshDisabled(s)
  {
  }

  // ---------------------------------------------------------------------------
  // Sessions: any sequence of clicks, automatic loads and timer ticks
  // ---------------------------------------------------------------------------

  datatype Event =
    | Click(now: int, result: Option<Generated>)
    | AutoLoad(now: int, result: Option<Generated>)
    | TimerTick

  function Step(s: Setup, e: Event): Setup {
    match e
    case Click(now, result) => LoadNewProject(s, now, true, result)
    case AutoLoad(now, result) => LoadNewProject(s, now, false, result)
    case TimerTick => Tick(s)
  }

  function Run(s: Setup, events: seq<Event>): Setup
    decreases |events|
  {
    if |events| == 0 then s else Step(Run(s, events[..|events| - 1]), events[|events| - 1])
  }

  /** The time stamps of the clicks the throttle let through, in order. */
  function AcceptedClicks(s: Setup, events: seq<Event>): seq<int>
    decreases |events|
  {
    if |events| == 0 then []
    else
      var before := Run(s, events[..|events| - 1]);
      var e := events[|events| - 1];
      AcceptedClicks(s, events[..|events| - 1])
      + (if e.Click? && !Throttled(before, e.now, true) then [e.now] else [])
  }

  predicate Valid(s: Setup) {
    s.refreshCount <= MaxRefreshes && s.cooldown <= CooldownSeconds
  }

  /**
   * Over any session: the refresh count only grows by the accepted clicks
   * and never passes 10, the countdown stays within 0..10, accepted clicks
   * are at least 10 000 ms after the previous accepted one, and the last
   * accepted click is the recorded refresh time.
   */
  lemma {:induction false} SessionThrottle(s: Setup, events: seq<Event>)
    requires Valid(s)
    ensures var r := Run(s, events);
            var a := AcceptedClicks(s, events);
            && Valid(r)
            && r.refreshCount == s.refreshCount + |a|
            && |a| <= MaxRefreshes - s.refreshCount
            && (|a| > 0 ==> a[0] - s.lastRefreshTime >= CooldownMs)
            && (forall k :: 0 < k < |a| ==> a[k] - a[k - 1] >= CooldownMs)
            && r.lastRefreshTime == (if |a| > 0 then a[|a| - 1] else s.lastRefreshTime)
    decreases |events|
  {
    if |events| > 0 {
      var prefix := events[..|events| - 1];
      SessionThrottle(s, prefix);
      StepThrottle(Run(s, prefix), events[|events| - 1]);
    }
  }

  /** One event: only an accepted click counts and records its time, and the state stays valid. */
  lemma StepThrottle(s: Setup, e: Event)
    requires Valid(s)
    ensures var r := Step(s, e);
            var accepted := e.Click? && !Throttled(s, e.now, true);
            && Valid(r)
            && r.refreshCount == s.refreshCount + (if accepted then 1 else 0)
            && r.lastRefreshTime == (if accepted then e.now else s.lastRefreshTime)
            && (accepted ==> s.refreshCount < MaxRefreshes && e.now - s.lastRefreshTime >= CooldownMs)
  {
  }

  /** From the page's initial state no session gets more than 10 refreshes through. */
  lemma AtMostTenRefreshes(events: seq<Event>)
    ensures |AcceptedClicks(Initial, events)| <= MaxRefreshes
    ensures Run(Initial, events).refreshCount <= MaxRefreshes
  {
    SessionThrottle(Initial, events);
  }
}

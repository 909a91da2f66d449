/**
 * The export page: the payload it derives from the stored milestones and
 * project, and the README and LinkedIn drafts it builds from it, with the
 * stored per-milestone reflections (`reflection-<index>`) woven in.
 *
 * Storage is a map from key to string; `toLowerCase` is a parameter.
 */
module Export {
  import opened Text
  import opened Progress
  import opened Catalog

  /** The project the page shows when none is stored. */
  const FallbackProject: StoredProject :=
    StoredProject(Some("Decentralized Voting App"), Some("A blockchain learning project"))

  const Ballot: string := "\U{1F5F3}\U{FE0F}"
  const Bullet: string := "\U{2022}"

  datatype Payload = Payload(
    milestones: seq<Milestone>,
    completed: seq<Milestone>,
    total: nat,
    progress: int,
    project: StoredProject)

  /**
   * The `payload` memo: the completed milestones are the order-preserving
   * filter of the list, progress is the rounded percentage (0 for an
   * empty list), and a missing project is replaced by the fixed one.
   */
  function MakePayload(ms: seq<Milestone>, stored: Option<StoredProject>): (r: Payload)
    ensures r.milestones == ms && r.total == |ms|
    ensures r.completed == FilterByComplete(ms, true)
    ensures |ms| == 0 ==> r.progress == 0
    ensures |ms| > 0 ==> 2 * |ms| * r.progress - |ms| <= 200 * |r.completed| < 2 * |ms| * r.progress + |ms|
    ensures 0 <= r.progress <= 100
    ensures stored.None? ==> r.project == FallbackProject
    ensures stored.Some? ==> r.project == stored.value
  {
    CompletedIsFilter(ms);
    Payload(ms, Completed(ms), |ms|, ProgressPercent(ms), if stored.Some? then stored.value else FallbackProject)
  }

  // ---------------------------------------------------------------------------
  // README draft
  // ---------------------------------------------------------------------------

  /** The `## Completed Milestones` list: `- ✅ <title>` per completed milestone. */
  function CompletedList(ms: seq<Milestone>): string {
    Join(TitleLines("- " + Check, Completed(ms)), "\n")
  }

  /** The `- ⏳ <title>` list of the milestones still open. */
  function RemainingList(ms: seq<Milestone>): string {
    Join(TitleLines("- " + Hourglass, Remaining(ms)), "\n")
  }

  /** The open-milestone list is non-empty exactly when some milestone is still open. */
  lemma RemainingListNonEmptyIff(ms: seq<Milestone>)
    ensures RemainingList(ms) != "" <==> exists i :: 0 <= i < |ms| && !ms[i].complete
  {
    var lines := TitleLines("- " + Hourglass, Remaining(ms));
    JoinEmptyIff(lines, "\n");
    if forall i :: 0 <= i < |ms| ==> ms[i].complete {
      NoneSelectedBelow(ms, IsIncomplete, |ms|);
    } else {
      var i :| 0 <= i < |ms| && !ms[i].complete;
      assert i in Indices(ms, IsIncomplete);
    }
  }

  /** The `## Remaining Milestones` section, present only when the list is non-empty. */
  function RemainingSection(ms: seq<Milestone>): (r: string)
    ensures r != "" <==> exists i :: 0 <= i < |ms| && !ms[i].complete
  {
    RemainingListNonEmptyIff(ms);
    var list := RemainingList(ms);
    if list != "" then "## Remaining Milestones\n" + list else ""
  }

  /** `**<title>**: <reflection>` for each completed milestone with a stored reflection, in list order. */
  function ReflectionEntries(ms: seq<Milestone>, store: map<string, string>): (r: seq<string>)
    ensures |r| == |Indices(ms, HasReflection(store))|
  {
    var idx := Indices(ms, HasReflection(store));
    seq(|idx|, k requires 0 <= k < |idx| =>
      "**" + ms[idx[k]].title + "**: " + StoredReflection(store, idx[k]).value)
  }

  /**
   * Each reflection entry belongs to a completed milestone whose stored
   * reflection (under its original index) is non-empty, the entries keep
   * the list order, and no such milestone is left out.
   */
  lemma ReflectionsFromCompletedOnly(ms: seq<Milestone>, store: map<string, string>)
    ensures var idx := Indices(ms, HasReflection(store));
            && (forall k :: 0 <= k < |idx| ==>
                  && idx[k] < |ms| && ms[idx[k]].complete
                  && ReflectionKey(idx[k]) in store && store[ReflectionKey(idx[k])] != ""
                  && ReflectionEntries(ms, store)[k] == "**" + ms[idx[k]].title + "**: " + store[ReflectionKey(idx[k])])
            && (forall k, l :: 0 <= k < l < |idx| ==> idx[k] < idx[l])
            && (forall i :: 0 <= i < |ms| && ms[i].complete && ReflectionKey(i) in store && store[ReflectionKey(i)] != "" ==> i in idx)
  {
  }

  const LearnedFallback: string :=
    "- How smart contracts work\n- How to deploy and interact with them\n- How to connect a React frontend to a contract"

  /** The `## What I Learned` body: the reflections, or the fixed three lines when there are none. */
  function LearnedSection(ms: seq<Milestone>, store: map<string, string>): (r: string)
    ensures Indices(ms, HasReflection(store)) == [] ==> r == LearnedFallback
    ensures Indices(ms, HasReflection(store)) != [] ==> r == Join(ReflectionEntries(ms, store), "\n\n")
  {
    var entries := ReflectionEntries(ms, store);
    JoinEmptyIff(entries, "\n\n");
    var joined := Join(entries, "\n\n");
    if joined != "" then joined else LearnedFallback
  }

  /** The project the drafts describe: the stored one, or the fixed one when none is stored. */
  function ShownProject(stored: Option<StoredProject>): StoredProject {
    if stored.Some? then stored.value else FallbackProject
  }

  /** The project heading line, `# <title> 🗳️`. */
  function ProjectHeading(project: StoredProject): string {
    "# " + Interpolate(project.title) + " " + Ballot
  }

  /** The `## Progress` block: the payload's rounded percentage and its completed/total counts. */
  function ProgressBlock(ms: seq<Milestone>): string {
    "## Progress\n" + NatToString(ProgressPercent(ms) as nat) + "% complete ("
    + NatToString(|Completed(ms)|) + "/" + NatToString(|ms|) + " milestones)"
  }

  /** The `## Completed Milestones` block. */
  function CompletedBlock(ms: seq<Milestone>): string {
    "## Completed Milestones\n" + CompletedList(ms)
  }

  const LearnedHeading: string := "## What I Learned\n"
  const BuiltWith: string := "## Built With\n- Solidity\n- Remix IDE  \n- Web3.js\n- React\n- MetaMask"
  const NextSteps: string := "## Next Steps\n- Add authentication\n- Improve UI\n- Deploy to mainnet"
  const Screenshot: string := "![Screenshot](screenshot.png)"

  /**
   * The nine blocks of the `readme` template, in order; the template puts a
   * blank line between neighbours. The remaining-milestones block is empty
   * when nothing is open, which leaves two blank lines in a row.
   */
  datatype Readme = Readme(
    heading: string,
    description: string,
    progress: string,
    completed: string,
    remaining: string,
    learned: string,
    builtWith: string,
    nextSteps: string,
    screenshot: string)

  /** Where the remaining-milestones block starts: after four blocks and four blank lines. */
  function RemainingAt(rd: Readme): nat {
    |rd.heading| + |rd.description| + |rd.progress| + |rd.completed| + 8
  }

  function Blocks(rd: Readme): seq<string> {
    [rd.heading, rd.description, rd.progress, rd.completed, rd.remaining,
     rd.learned, rd.builtWith, rd.nextSteps, rd.screenshot]
  }

  /**
   * The blocks joined by blank lines: the text opens with the heading, and
   * the remaining-milestones block, a blank line and the learned block
   * follow the four blocks before them and their four blank lines.
   */
  function Render(rd: Readme): (r: string)
    ensures StartsWith(r, rd.heading)
    ensures Occurs(r, rd.remaining + "\n\n" + rd.learned, RemainingAt(rd))
  {
    var xs := Blocks(rd);
    JoinPieceAt(xs, "\n\n", 0);
    JoinPieceAt(xs, "\n\n", 4);
    JoinPieceAt(xs, "\n\n", 5);
    OccursAtStart(Join(xs, "\n\n"), xs[0]);
    assert PieceOffset(xs, "\n\n", 2) == |rd.heading| + |rd.description| + 4;
    assert PieceOffset(xs, "\n\n", 4) == RemainingAt(rd);
    var r := Join(xs, "\n\n");
    OccursAdjacent(r, rd.remaining, "\n\n", RemainingAt(rd));
    OccursAdjacent(r, rd.remaining + "\n\n", rd.learned, RemainingAt(rd));
    r
  }

  /** The blocks of the `readme` memo for the stored milestones, project and reflections. */
  function ReadmeOf(ms: seq<Milestone>, stored: Option<StoredProject>, store: map<string, string>): Readme {
    var project := ShownProject(stored);
    Readme(
      ProjectHeading(project), Interpolate(project.description), ProgressBlock(ms), CompletedBlock(ms),
      RemainingSection(ms), LearnedHeading + LearnedSection(ms, store), BuiltWith, NextSteps, Screenshot)
  }

  /**
   * The `readme` memo. It opens with the project heading (the fixed project
   * when none is stored); after the description, progress and completed
   * blocks comes the remaining-milestones section, a blank line, and the
   * `## What I Learned` section.
   */
  function ReadmeText(ms: seq<Milestone>, stored: Option<StoredProject>, store: map<string, string>): (r: string)
    ensures StartsWith(r, ProjectHeading(ShownProject(stored)))
    ensures Occurs(r, RemainingSection(ms) + "\n\n" + (LearnedHeading + LearnedSection(ms, store)),
                   RemainingAt(ReadmeOf(ms, stored, store)))
  {
    Render(ReadmeOf(ms, stored, store))
  }

  // ---------------------------------------------------------------------------
  // LinkedIn draft
  // ---------------------------------------------------------------------------

  function Min(a: nat, b: nat): nat {
    if a <= b then a else b
  }

  /** The bullet for the milestone at index `i`: its reflection, or `Completed <title>`. */
  function LearnedBullet(ms: seq<Milestone>, store: map<string, string>, i: nat): (r: string)
    requires i < |ms|
    ensures StoredReflection(store, i).Some? ==> r == Bullet + " " + store[ReflectionKey(i)]
    ensures StoredReflection(store, i).None? ==> r == Bullet + " Completed " + ms[i].title
  {
    match StoredReflection(store, i)
    case Some(reflection) => Bullet + " " + reflection
    case None => Bullet + " Completed " + ms[i].title
  }

  /** The "Here's what I learned" bullets: one for each of the first three completed milestones. */
  function LearnedBullets(ms: seq<Milestone>, store: map<string, string>): (r: seq<string>)
    ensures |r| == Min(3, Done(ms))
    ensures var c := Indices(ms, IsComplete);
            forall k :: 0 <= k < |r| ==> c[k] < |ms| && ms[c[k]].complete && r[k] == LearnedBullet(ms, store, c[k])
  {
    var c := Indices(ms, IsComplete);
    var first := c[..Min(3, |c|)];
    seq(|first|, k requires 0 <= k < |first| => LearnedBullet(ms, store, first[k]))
  }

  /** The bullets come from the first completed milestones, in order: the cut keeps a prefix. */
  lemma LearnedBulletsAreFirstCompleted(ms: seq<Milestone>, store: map<string, string>)
    ensures forall k :: 0 <= k < |LearnedBullets(ms, store)| ==>
              forall i :: 0 <= i < Indices(ms, IsComplete)[k] && ms[i].complete ==>
                i in Indices(ms, IsComplete)[..k]
  {
    var c := Indices(ms, IsComplete);
    forall k, i | 0 <= k < |LearnedBullets(ms, store)| && 0 <= i < c[k] && ms[i].complete
      ensures i in c[..k]
    {
      assert i in c;
      var j :| 0 <= j < |c| && c[j] == i;
      assert c[..k][j] == i;
    }
  }

  const LinkedInTail: string :=
    "This project taught me:\n"
    + "\U{2022} How smart contracts work in practice\n"
    + "\U{2022} How to deploy and interact with them  \n"
    + "\U{2022} How to connect a React frontend to a contract\n\n"
    + "Next, I want to:\n"
    + "\U{2022} Add authentication\n"
    + "\U{2022} Improve the UI\n"
    + "\U{2022} Deploy to mainnet\n\n"
    + "#100Devs #Web3 #ProjectBasedLearning #Blockchain #Solidity"

  /** The LinkedIn draft's opening line, with the lower-cased title. */
  function LinkedInOpening(title: string, lower: string -> string): string {
    "I just finished building " + lower(title) + "! " + Rocket + "\n\n"
  }

  /** The LinkedIn draft's counts line: completed of total, and the payload's rounded percentage. */
  function LinkedInCounts(ms: seq<Milestone>): string {
    "Completed " + NatToString(|Completed(ms)|) + "/" + NatToString(|ms|)
    + " milestones (" + NatToString(ProgressPercent(ms) as nat) + "% done).\n\n"
  }

  /** The "Here's what I learned" bullets and the fixed closing text. */
  function LinkedInLearned(ms: seq<Milestone>, store: map<string, string>): string {
    "Here's what I learned:\n" + Join(LearnedBullets(ms, store), "\n") + "\n\n" + LinkedInTail
  }

  /**
   * The `linkedin` memo. `None` when the project has no title: calling
   * `toLowerCase` on `undefined` throws. Otherwise the draft opens with the
   * lower-cased title, the counts line follows, and it closes with the
   * learned bullets and the fixed text.
   */
  function LinkedInText(ms: seq<Milestone>, stored: Option<StoredProject>, store: map<string, string>,
                        lower: string -> string): (r: Option<string>)
    ensures r.None? <==> stored.Some? && stored.value.title.None?
    ensures var title := ShownProject(stored).title;
            r.Some? ==> title.Some? && StartsWith(r.value, LinkedInOpening(title.value, lower))
    ensures var title := ShownProject(stored).title;
            r.Some? ==> title.Some? && Occurs(r.value, LinkedInCounts(ms), |LinkedInOpening(title.value, lower)|)
    ensures r.Some? ==> EndsWith(r.value, LinkedInLearned(ms, store))
  {
    match ShownProject(stored).title
    case None => None
    case Some(title) =>
      var opening := LinkedInOpening(title, lower);
      Sandwich(opening, LinkedInCounts(ms), LinkedInLearned(ms, store));
      Some(opening + LinkedInCounts(ms) + LinkedInLearned(ms, store))
  }
}

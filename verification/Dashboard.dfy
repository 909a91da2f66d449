/**
 * The dashboard page: its progress figures, the automatic move to the
 * export page once every milestone is done, and the two clipboard drafts
 * (README and LinkedIn post) it assembles from the milestone list.
 */
module Dashboard {
  import opened Text
  import opened Progress
  import opened Catalog

  /** `currentProject?.<field> || fallback` */
  function ShownTitle(p: Option<StoredProject>, fallback: string): (r: string)
    ensures p.Some? && Truthy(p.value.title) ==> r == p.value.title.value
    ensures p.None? || !Truthy(p.value.title) ==> r == fallback
  {
    if p.Some? then OrElse(p.value.title, fallback) else fallback
  }

  function ShownDescription(p: Option<StoredProject>, fallback: string): (r: string)
    ensures p.Some? && Truthy(p.value.description) ==> r == p.value.description.value
    ensures p.None? || !Truthy(p.value.description) ==> r == fallback
  {
    if p.Some? then OrElse(p.value.description, fallback) else fallback
  }

  /**
   * Whether the page moves on to the export page: when there are
   * milestones and every one of them is done.
   */
  function ShouldAutoExport(ms: seq<Milestone>): (b: bool)
    ensures b <==> |ms| > 0 && forall i :: 0 <= i < |ms| ==> ms[i].complete
  {
    AllDoneIff(ms);
    |ms| > 0 && Done(ms) == |ms| && |ms| > 0
  }

  /** The move depends on the counts, not the percentage: 100% can show with a milestone still open. */
  lemma AutoExportIsNotFullPercent()
    ensures exists ms: seq<Milestone> :: ProgressPercent(ms) == 100 && !ShouldAutoExport(ms)
  {
    var ms := OneOpenAfter(199);
    DoneOneOpenAfter(199);
    RoundIsUnique(100 * 199, 200, 100);
    assert ProgressPercent(ms) == 100 && !ShouldAutoExport(ms);
  }

  // ---------------------------------------------------------------------------
  // README draft
  // ---------------------------------------------------------------------------

  function Marker(complete: bool): string {
    if complete then Check else Hourglass
  }

  /** One `- <title> <marker>` line per milestone, in list order. */
  function MilestoneLines(ms: seq<Milestone>): (r: seq<string>)
    ensures |r| == |ms|
  {
    seq(|ms|, i requires 0 <= i < |ms| => "- " + ms[i].title + " " + Marker(ms[i].complete))
  }

  /** The title and overview part of the README draft. */
  function ReadmeHead(p: Option<StoredProject>): string {
    "# " + ShownTitle(p, "My Project")
    + "\n\n## Overview\n" + ShownDescription(p, "A learning project") + "\n\n"
  }

  /** The README draft's progress line: the rounded percentage and the done/total counts. */
  function ReadmeProgress(ms: seq<Milestone>): string {
    "## Progress\n" + NatToString(ProgressPercent(ms) as nat) + "% complete ("
    + NatToString(Done(ms)) + "/" + NatToString(|ms|) + " milestones)"
  }

  /** The README draft's milestone list and closing next-steps line. */
  function ReadmeMilestones(ms: seq<Milestone>): string {
    "\n\n## Milestones\n" + Join(MilestoneLines(ms), "\n") + "\n\n## Next Steps\nContinue building and learning!"
  }

  /**
   * `handleCopyREADME`'s text. It opens with the project title and
   * description, or `My Project` and `A learning project` when they are
   * missing or empty, and closes with one line per milestone followed by
   * the fixed next-steps line.
   */
  function ReadmeText(p: Option<StoredProject>, ms: seq<Milestone>): (r: string)
    ensures StartsWith(r, "# " + ShownTitle(p, "My Project") + "\n\n## Overview\n" + ShownDescription(p, "A learning project") + "\n\n")
    ensures p.None? ==> StartsWith(r, "# " + "My Project" + "\n\n## Overview\n" + "A learning project" + "\n\n")
    ensures EndsWith(r, ReadmeMilestones(ms))
  {
    Sandwich(ReadmeHead(p), ReadmeProgress(ms), ReadmeMilestones(ms));
    ReadmeHead(p) + ReadmeProgress(ms) + ReadmeMilestones(ms)
  }

  /** How many of `lines` end with `suffix`. */
  function CountEndingWith(lines: seq<string>, suffix: string): (c: nat)
    ensures c <= |lines|
    decreases |lines|
  {
    if |lines| == 0 then 0
    else CountEndingWith(lines[..|lines| - 1], suffix) + (if EndsWith(lines[|lines| - 1], suffix) then 1 else 0)
  }

  lemma LineMarkerIsLastChar(m: Milestone)
    ensures EndsWith("- " + m.title + " " + Marker(m.complete), Check) <==> m.complete
  {
    var line := "- " + m.title + " " + Marker(m.complete);
    assert line[|line| - 1] == Marker(m.complete)[0];
  }

  lemma {:induction false} CheckedLinesBelow(ms: seq<Milestone>, n: nat)
    requires n <= |ms|
    ensures CountEndingWith(MilestoneLines(ms)[..n], Check) == |IndicesBelow(ms, IsComplete, n)|
    decreases n
  {
    if n > 0 {
      CheckedLinesBelow(ms, n - 1);
      CountPrefixStep(MilestoneLines(ms), Check, n);
      LineEndsWithCheck(ms, n - 1);
      IndicesBelowStep(ms, IsComplete, n);
      assert Selects(IsComplete, ms, n - 1) == ms[n - 1].complete;
    }
  }

  lemma CountPrefixStep(lines: seq<string>, suffix: string, n: nat)
    requires 0 < n <= |lines|
    ensures CountEndingWith(lines[..n], suffix)
            == CountEndingWith(lines[..n - 1], suffix) + (if EndsWith(lines[n - 1], suffix) then 1 else 0)
  {
    assert lines[..n][..n - 1] == lines[..n - 1];
  }

  lemma LineEndsWithCheck(ms: seq<Milestone>, i: nat)
    requires i < |ms|
    ensures EndsWith(MilestoneLines(ms)[i], Check) <==> ms[i].complete
  {
    LineMarkerIsLastChar(ms[i]);
  }

  /** Exactly `done` of the README's milestone lines carry the done marker: the marker follows `complete`. */
  lemma CheckedLinesCountDone(ms: seq<Milestone>)
    ensures CountEndingWith(MilestoneLines(ms), Check) == Done(ms)
    ensures forall i :: 0 <= i < |ms| ==> (EndsWith(MilestoneLines(ms)[i], Check) <==> ms[i].complete)
  {
    CheckedLinesBelow(ms, |ms|);
    assert MilestoneLines(ms)[..|ms|] == MilestoneLines(ms);
    forall i | 0 <= i < |ms| ensures EndsWith(MilestoneLines(ms)[i], Check) <==> ms[i].complete {
      LineMarkerIsLastChar(ms[i]);
    }
  }

  // ---------------------------------------------------------------------------
  // LinkedIn draft
  // ---------------------------------------------------------------------------

  /** The "What I've built so far" lines. */
  function BuiltLines(ms: seq<Milestone>): seq<string> {
    TitleLines(Check, Completed(ms))
  }

  /** The "Still working on" lines. */
  function WorkingLines(ms: seq<Milestone>): seq<string> {
    TitleLines(Hourglass, Remaining(ms))
  }

  /** The LinkedIn draft's opening line: the rounded percentage and the title, or `project`. */
  function LinkedInOpening(p: Option<StoredProject>, ms: seq<Milestone>): string {
    Rocket + " Just hit " + NatToString(ProgressPercent(ms) as nat) + "% completion on my \""
    + ShownTitle(p, "project") + "\"!"
  }

  /** The "What I've built so far" part. */
  function LinkedInBuilt(ms: seq<Milestone>): string {
    "\n\nWhat I've built so far:\n" + Join(BuiltLines(ms), "\n")
  }

  /** The "Still working on" part and the closing hashtags. */
  function LinkedInWorking(ms: seq<Milestone>): string {
    "\n\nStill working on:\n" + Join(WorkingLines(ms), "\n")
    + "\n\n#PortfolioProject #LearningInPublic #WebDevelopment"
  }

  /**
   * `handleCopyLinkedIn`'s text: the opening line, then the completed
   * milestones, then the open ones and the hashtags, in that order.
   */
  function LinkedInText(p: Option<StoredProject>, ms: seq<Milestone>): (r: string)
    ensures StartsWith(r, LinkedInOpening(p, ms))
    ensures Occurs(r, LinkedInBuilt(ms), |LinkedInOpening(p, ms)|)
    ensures EndsWith(r, LinkedInWorking(ms))
  {
    var r := LinkedInOpening(p, ms) + LinkedInBuilt(ms) + LinkedInWorking(ms);
    Sandwich(LinkedInOpening(p, ms), LinkedInBuilt(ms), LinkedInWorking(ms));
    r
  }

  /**
   * The two lists of the LinkedIn draft split the milestones: the built
   * list names the completed ones and the other list the rest, each in
   * the original order, and together they have one line per milestone.
   */
  lemma LinkedInListsPartition(ms: seq<Milestone>)
    ensures |BuiltLines(ms)| + |WorkingLines(ms)| == |ms|
    ensures var c := Indices(ms, IsComplete);
            forall k :: 0 <= k < |c| ==> ms[c[k]].complete && BuiltLines(ms)[k] == Check + " " + ms[c[k]].title
    ensures var o := Indices(ms, IsIncomplete);
            forall k :: 0 <= k < |o| ==> !ms[o[k]].complete && WorkingLines(ms)[k] == Hourglass + " " + ms[o[k]].title
    ensures forall k, l :: 0 <= k < l < |Indices(ms, IsComplete)| ==> Indices(ms, IsComplete)[k] < Indices(ms, IsComplete)[l]
    ensures forall k, l :: 0 <= k < l < |Indices(ms, IsIncomplete)| ==> Indices(ms, IsIncomplete)[k] < Indices(ms, IsIncomplete)[l]
  {
    Partition(ms);
  }
}

/**
 * Milestones and the progress arithmetic every page repeats: how many are
 * done, the rounded percentage, the completed / remaining split (which
 * keeps the original order and the original indices, since the stored
 * reflections are keyed by index), and the first milestone still open.
 */
module Progress {
  import opened Text

  /** The done and open markers the drafts put next to a milestone. */
  const Check: string := "\U{2705}"
  const Hourglass: string := "\U{23F3}"
  /** The rocket both LinkedIn drafts carry. */
  const Rocket: string := "\U{1F680}"

  /** A plan step as the pages read it from storage. */
  datatype Milestone = Milestone(title: string, description: string, complete: bool)

  /** Which milestones a filter keeps. */
  datatype Selector =
    | IsComplete
    | IsIncomplete
      /** completed milestones that have a (non-empty) stored reflection */
    | HasReflection(store: map<string, string>)

  /** The storage key of the reflection for the milestone at index `i`: `reflection-<i>`. */
  function ReflectionKey(i: nat): string {
    "reflection-" + NatToString(i)
  }

  /** The stored reflection for index `i`, when it is present and non-empty (JavaScript truthiness). */
  function StoredReflection(store: map<string, string>, i: nat): (r: Option<string>)
    ensures r.Some? <==> ReflectionKey(i) in store && store[ReflectionKey(i)] != ""
    ensures r.Some? ==> r.value == store[ReflectionKey(i)]
  {
    var key := ReflectionKey(i);
    if key in store && store[key] != "" then Some(store[key]) else None
  }

  predicate Selects(sel: Selector, ms: seq<Milestone>, i: nat)
    requires i < |ms|
  {
    match sel
    case IsComplete => ms[i].complete
    case IsIncomplete => !ms[i].complete
    case HasReflection(store) => ms[i].complete && StoredReflection(store, i).Some?
  }

  /** The indices below `n` whose milestone the selector keeps, in ascending order. */
  function IndicesBelow(ms: seq<Milestone>, sel: Selector, n: nat): (r: seq<nat>)
    requires n <= |ms|
    ensures |r| <= n
    ensures forall k :: 0 <= k < |r| ==> r[k] < n && Selects(sel, ms, r[k])
    ensures forall k, l :: 0 <= k < l < |r| ==> r[k] < r[l]
    ensures forall i :: 0 <= i < n && Selects(sel, ms, i) ==> i in r
    decreases n
  {
    if n == 0 then []
    else IndicesBelow(ms, sel, n - 1) + (if Selects(sel, ms, n - 1) then [n - 1] else [])
  }

  /** The original indices of the milestones the selector keeps (what `milestones.indexOf(m)` recovers). */
  function Indices(ms: seq<Milestone>, sel: Selector): seq<nat> {
    IndicesBelow(ms, sel, |ms|)
  }

  predicate ValidIndices(ms: seq<Milestone>, idx: seq<nat>) {
    forall k :: 0 <= k < |idx| ==> idx[k] < |ms|
  }

  /** The milestones at the given indices, in the order of the indices. */
  function Select(ms: seq<Milestone>, idx: seq<nat>): (r: seq<Milestone>)
    requires ValidIndices(ms, idx)
    ensures |r| == |idx|
  {
    seq(|idx|, k requires 0 <= k < |idx| => ms[idx[k]])
  }

  /** `milestones.filter(m => m.complete)` */
  function Completed(ms: seq<Milestone>): seq<Milestone> {
    Select(ms, Indices(ms, IsComplete))
  }

  /** `milestones.filter(m => !m.complete)` */
  function Remaining(ms: seq<Milestone>): seq<Milestone> {
    Select(ms, Indices(ms, IsIncomplete))
  }

  /** `<prefix> <title>` for each milestone, in order (the drafts' bullet lists). */
  function TitleLines(prefix: string, ms: seq<Milestone>): (r: seq<string>)
    ensures |r| == |ms|
  {
    seq(|ms|, i requires 0 <= i < |ms| => prefix + " " + ms[i].title)
  }

  /** `done`: the number of completed milestones. */
  function Done(ms: seq<Milestone>): (d: nat)
    ensures d <= |ms|
  {
    |Completed(ms)|
  }

  /** The straightforward filter, one element at a time: the reference for `Completed` and `Remaining`. */
  function FilterByComplete(ms: seq<Milestone>, want: bool): seq<Milestone>
    decreases |ms|
  {
    if |ms| == 0 then []
    else FilterByComplete(ms[..|ms| - 1], want) + (if ms[|ms| - 1].complete == want then [ms[|ms| - 1]] else [])
  }

  /** One more position adds one index exactly when the selector keeps it. */
  lemma IndicesBelowStep(ms: seq<Milestone>, sel: Selector, n: nat)
    requires 0 < n <= |ms|
    ensures |IndicesBelow(ms, sel, n)| == |IndicesBelow(ms, sel, n - 1)| + (if Selects(sel, ms, n - 1) then 1 else 0)
  {
  }

  lemma SelectAppend(ms: seq<Milestone>, a: seq<nat>, b: seq<nat>)
    requires ValidIndices(ms, a) && ValidIndices(ms, b)
    ensures ValidIndices(ms, a + b)
    ensures Select(ms, a + b) == Select(ms, a) + Select(ms, b)
  {
    assert ValidIndices(ms, a + b);
    var l := Select(ms, a + b);
    var r := Select(ms, a) + Select(ms, b);
    forall k | 0 <= k < |l| ensures l[k] == r[k] {
      if k < |a| {
        assert (a + b)[k] == a[k];
      } else {
        assert (a + b)[k] == b[k - |a|];
      }
    }
  }

  /** The filter of a longer prefix extends the filter of the shorter one by at most the new element. */
  lemma FilterPrefixStep(ms: seq<Milestone>, want: bool, n: nat)
    requires 0 < n <= |ms|
    ensures FilterByComplete(ms[..n], want)
            == FilterByComplete(ms[..n - 1], want) + (if ms[n - 1].complete == want then [ms[n - 1]] else [])
  {
    var prefix := ms[..n];
    assert prefix[..n - 1] == ms[..n - 1];
    assert prefix[n - 1] == ms[n - 1];
  }

  lemma {:induction false} SelectBelowIsFilter(ms: seq<Milestone>, want: bool, n: nat)
    requires n <= |ms|
    ensures var sel := if want then IsComplete else IsIncomplete;
            Select(ms, IndicesBelow(ms, sel, n)) == FilterByComplete(ms[..n], want)
    decreases n
  {
    var sel := if want then IsComplete else IsIncomplete;
    if n > 0 {
      SelectBelowIsFilter(ms, want, n - 1);
      FilterPrefixStep(ms, want, n);
      var prev := IndicesBelow(ms, sel, n - 1);
      var last: seq<nat> := if ms[n - 1].complete == want then [n - 1] else [];
      assert Selects(sel, ms, n - 1) <==> ms[n - 1].complete == want;
      assert IndicesBelow(ms, sel, n) == prev + last;
      SelectAppend(ms, prev, last);
      assert Select(ms, last) == (if ms[n - 1].complete == want then [ms[n - 1]] else []);
    }
  }

  /** `Completed` and `Remaining` are exactly the order-preserving filters of the milestone list. */
  lemma CompletedIsFilter(ms: seq<Milestone>)
    ensures Completed(ms) == FilterByComplete(ms, true)
    ensures Remaining(ms) == FilterByComplete(ms, false)
  {
    SelectBelowIsFilter(ms, true, |ms|);
    SelectBelowIsFilter(ms, false, |ms|);
    assert ms[..|ms|] == ms;
  }

  lemma {:induction false} PartitionBelow(ms: seq<Milestone>, n: nat)
    requires n <= |ms|
    ensures |IndicesBelow(ms, IsComplete, n)| + |IndicesBelow(ms, IsIncomplete, n)| == n
    decreases n
  {
    if n > 0 {
      PartitionBelow(ms, n - 1);
    }
  }

  /**
   * The completed and the remaining indices split the milestone list:
   * every index is in exactly one of them, and together they count every milestone.
   */
  lemma Partition(ms: seq<Milestone>)
    ensures |Completed(ms)| + |Remaining(ms)| == |ms|
    ensures forall i :: 0 <= i < |ms| ==>
              (i in Indices(ms, IsComplete) <==> ms[i].complete) &&
              (i in Indices(ms, IsIncomplete) <==> !ms[i].complete)
  {
    PartitionBelow(ms, |ms|);
  }

  /** When every index below `n` is selected, the index list is `0, 1, ..., n-1`. */
  lemma {:induction false} AllSelectedBelow(ms: seq<Milestone>, sel: Selector, n: nat)
    requires n <= |ms|
    requires forall i :: 0 <= i < n ==> Selects(sel, ms, i)
    ensures |IndicesBelow(ms, sel, n)| == n
    decreases n
  {
    if n > 0 {
      AllSelectedBelow(ms, sel, n - 1);
    }
  }

  /** When no index below `n` is selected, the index list is empty. */
  lemma NoneSelectedBelow(ms: seq<Milestone>, sel: Selector, n: nat)
    requires n <= |ms|
    requires forall i :: 0 <= i < n ==> !Selects(sel, ms, i)
    ensures IndicesBelow(ms, sel, n) == []
  {
  }

  /** All milestones done is the same as `done == total`. */
  lemma AllDoneIff(ms: seq<Milestone>)
    ensures Done(ms) == |ms| <==> forall i :: 0 <= i < |ms| ==> ms[i].complete
  {
    Partition(ms);
    if forall i :: 0 <= i < |ms| ==> ms[i].complete {
      AllSelectedBelow(ms, IsComplete, |ms|);
    }
  }

  /** No milestone done is the same as `done == 0`. */
  lemma NoneDoneIff(ms: seq<Milestone>)
    ensures Done(ms) == 0 <==> forall i :: 0 <= i < |ms| ==> !ms[i].complete
  {
    if forall i :: 0 <= i < |ms| ==> !ms[i].complete {
      NoneSelectedBelow(ms, IsComplete, |ms|);
    } else {
      var i :| 0 <= i < |ms| && ms[i].complete;
      assert i in Indices(ms, IsComplete);
    }
  }

  // ---------------------------------------------------------------------------
  // Percentages
  // ---------------------------------------------------------------------------

  /**
   * `Math.round(num / den)` over exact integers: the integer nearest to
   * the fraction, halves rounded up (toward +infinity, as `Math.round` does).
   */
  function Round(num: int, den: nat): (q: int)
    requires den > 0
    ensures 2 * den * q - den <= 2 * num < 2 * den * q + den
  {
    var a := 2 * num + den;
    var b := 2 * den;
    assert a == b * (a / b) + a % b;
    a / b
  }

  lemma MulLe(b: int, x: int, y: int)
    requires b > 0 && x <= y
    ensures b * x <= b * y
  {
    assert b * y - b * x == b * (y - x);
  }

  /** The rounding bounds pin the result down: at most one integer satisfies them. */
  lemma RoundIsUnique(num: int, den: nat, q: int)
    requires den > 0
    requires 2 * den * q - den <= 2 * num < 2 * den * q + den
    ensures Round(num, den) == q
  {
    var r := Round(num, den);
    if r < q {
      MulLe(2 * den, r + 1, q);
    } else if r > q {
      MulLe(2 * den, q + 1, r);
    }
  }

  /** Rounding is monotone in the numerator. */
  lemma {:induction false} RoundMonotone(n1: int, n2: int, den: nat)
    requires den > 0 && n1 <= n2
    ensures Round(n1, den) <= Round(n2, den)
  {
    var q1, q2 := Round(n1, den), Round(n2, den);
    if q1 > q2 {
      MulLe(2 * den, q2 + 1, q1);
    }
  }

  /** A share of a whole rounds to a percentage within 0..100. */
  lemma PercentInRange(part: nat, whole: nat)
    requires whole > 0 && part <= whole
    ensures 0 <= Round(100 * part, whole) <= 100
  {
    var p := Round(100 * part, whole);
    if p > 100 {
      MulLe(2 * whole, 101, p);
    }
    if p < 0 {
      MulLe(2 * whole, p, -1);
    }
  }

  /**
   * `whole ? Math.round(part / whole * 100) : 0`, with the division exact:
   * the integer nearest to 100·part/whole, halves rounded up.
   */
  function RoundedPercent(part: nat, whole: nat): (p: int)
    ensures whole == 0 ==> p == 0
    ensures whole > 0 ==> 2 * whole * p - whole <= 200 * part < 2 * whole * p + whole
    ensures part <= whole ==> 0 <= p <= 100
  {
    if whole == 0 then 0
    else
      if part <= whole then PercentInRange(part, whole); Round(100 * part, whole)
      else Round(100 * part, whole)
  }

  /** The progress percentage of a milestone list. */
  function ProgressPercent(ms: seq<Milestone>): (p: int)
    ensures 0 <= p <= 100
  {
    RoundedPercent(Done(ms), |ms|)
  }

  /** More parts done never lowers the percentage. */
  lemma RoundedPercentMonotone(a: nat, b: nat, whole: nat)
    requires a <= b
    ensures RoundedPercent(a, whole) <= RoundedPercent(b, whole)
  {
    if whole > 0 {
      RoundMonotone(100 * a, 100 * b, whole);
    }
  }

  /** All done (and at least one milestone) gives 100; nothing done gives 0. */
  lemma PercentEndpoints(ms: seq<Milestone>)
    ensures Done(ms) == |ms| && |ms| > 0 ==> ProgressPercent(ms) == 100
    ensures Done(ms) == 0 ==> ProgressPercent(ms) == 0
  {
    var w := |ms|;
    if w > 0 {
      if Done(ms) == w {
        RoundIsUnique(100 * w, w, 100);
      }
      if Done(ms) == 0 {
        RoundIsUnique(0, w, 0);
      }
    }
  }

  /** The percentage at the two ends, stated on the milestones themselves. */
  lemma PercentOfFlags(ms: seq<Milestone>)
    ensures |ms| > 0 && (forall i :: 0 <= i < |ms| ==> ms[i].complete) ==> ProgressPercent(ms) == 100
    ensures (forall i :: 0 <= i < |ms| ==> !ms[i].complete) ==> ProgressPercent(ms) == 0
  {
    AllDoneIff(ms);
    NoneDoneIff(ms);
    PercentEndpoints(ms);
  }

  /** `n` completed milestones followed by one open one. */
  function OneOpenAfter(n: nat): (ms: seq<Milestone>)
    ensures |ms| == n + 1 && !ms[n].complete
  {
    seq(n, _ => Milestone("", "", true)) + [Milestone("", "", false)]
  }

  lemma DoneOneOpenAfter(n: nat)
    ensures Done(OneOpenAfter(n)) == n
  {
    var ms := OneOpenAfter(n);
    AllSelectedBelow(ms, IsComplete, n);
    assert IndicesBelow(ms, IsComplete, n + 1) == IndicesBelow(ms, IsComplete, n);
  }

  /**
   * 100% does not mean every milestone is done: with 199 of 200 done the
   * percentage already rounds to 100.
   */
  lemma FullPercentWithOpenMilestone()
    ensures exists ms: seq<Milestone> :: ProgressPercent(ms) == 100 && exists i :: 0 <= i < |ms| && !ms[i].complete
  {
    var ms := OneOpenAfter(199);
    DoneOneOpenAfter(199);
    RoundIsUnique(100 * 199, 200, 100);
    assert ProgressPercent(ms) == 100;
    assert !ms[199].complete;
  }

  // ---------------------------------------------------------------------------
  // The first milestone still open
  // ---------------------------------------------------------------------------

  /** `milestones.findIndex(m => !m.complete)`, as an option. */
  function FirstIncomplete(ms: seq<Milestone>): (r: Option<nat>)
    ensures r.None? ==> forall i :: 0 <= i < |ms| ==> ms[i].complete
    ensures r.Some? ==> r.value < |ms| && !ms[r.value].complete
                        && forall i :: 0 <= i < r.value ==> ms[i].complete
    decreases |ms|
  {
    if |ms| == 0 then None
    else if !ms[0].complete then Some(0)
    else match FirstIncomplete(ms[1..])
      case None => None
      case Some(i) => Some(i + 1)
  }

  /** The first open milestone is the head of the remaining list. */
  lemma FirstIncompleteIsFirstRemaining(ms: seq<Milestone>)
    ensures FirstIncomplete(ms).None? <==> Remaining(ms) == []
    ensures FirstIncomplete(ms).Some? ==>
              Indices(ms, IsIncomplete)[0] == FirstIncomplete(ms).value
  {
    var r := Indices(ms, IsIncomplete);
    match FirstIncomplete(ms)
    case None =>
      NoneSelectedBelow(ms, IsIncomplete, |ms|);
    case Some(f) =>
      assert f in r;
  }
}

/**
 * The progress bar's width and the root `App`'s progress figure.
 *
 * The bar takes any number; here it is a fraction `num / den` with a
 * positive denominator, so `Math.round` (halves toward +infinity) is
 * exact. The global milestone list the `App` reads is an input.
 */
module ProgressBar {
  import opened Text
  import opened Progress

  /** `Math.max(0, Math.min(100, Math.round(percent)))` */
  function Width(num: int, den: nat): (pct: int)
    requires den > 0
    ensures 0 <= pct <= 100
    ensures Round(num, den) < 0 ==> pct == 0
    ensures Round(num, den) > 100 ==> pct == 100
    ensures 0 <= Round(num, den) <= 100 ==> pct == Round(num, den)
  {
    var r := Round(num, den);
    if r > 100 then 100 else if r < 0 then 0 else r
  }

  /** An integer percentage in range is drawn as given. */
  lemma WholePercentUnchanged(p: int)
    requires 0 <= p <= 100
    ensures Width(p, 1) == p
  {
    RoundIsUnique(p, 1, p);
  }

  /** A non-positive fraction gives an empty bar and anything from 100 up a full one. */
  lemma WidthClamps(num: int, den: nat)
    requires den > 0
    ensures num <= 0 ==> Width(num, den) == 0
    ensures num >= 100 * den ==> Width(num, den) == 100
  {
    var q := Round(num, den);
    if num <= 0 && q > 0 {
      MulLe(2 * den, 1, q);
    }
    if num >= 100 * den && q < 100 {
      MulLe(2 * den, q, 99);
    }
  }

  /** A larger fraction never gives a narrower bar. */
  lemma WidthMonotone(a: int, b: int, den: nat)
    requires den > 0 && a <= b
    ensures Width(a, den) <= Width(b, den)
  {
    var qa := Round(a, den);
    var qb := Round(b, den);
    if qa > qb {
      MulLe(2 * den, qb + 1, qa);
    }
  }

  /** The root `App`'s figure: the rounded share of done milestones in the global list, 0 when there is none. */
  function AppProgress(global: Option<seq<Milestone>>): (p: int)
    ensures 0 <= p <= 100
    ensures global.None? ==> p == 0
    ensures global.Some? ==> p == ProgressPercent(global.value)
  {
    var ms := if global.Some? then global.value else [];
    ProgressPercent(ms)
  }

  /** The bar under the `App`'s figure is exactly as wide as the figure says. */
  lemma AppBarMatchesFigure(global: Option<seq<Milestone>>)
    ensures Width(AppProgress(global), 1) == AppProgress(global)
  {
    WholePercentUnchanged(AppProgress(global));
  }
}

/**
 * String helpers shared by the export drafts, the chat pages and the
 * API handlers: optional values, JavaScript's `||` on strings,
 * `Array.prototype.join`, decimal rendering of counts, and
 * `String.prototype.trim`.
 */
module Text {

  datatype Option<+T> = None | Some(value: T)

  /** JavaScript truthiness of an optional string: present and non-empty. */
  predicate Truthy(o: Option<string>) {
    o.Some? && o.value != ""
  }

  /** `o || fallback` for an optional string. */
  function OrElse(o: Option<string>, fallback: string): string {
    if Truthy(o) then o.value else fallback
  }

  /** How a template literal renders an optional string: `undefined` when absent. */
  function Interpolate(o: Option<string>): string {
    if o.Some? then o.value else "undefined"
  }

  predicate StartsWith(s: string, prefix: string) {
    |prefix| <= |s| && s[..|prefix|] == prefix
  }

  predicate EndsWith(s: string, suffix: string) {
    |suffix| <= |s| && s[|s| - |suffix|..] == suffix
  }

  /** A string starts with a prefix only if their first characters agree. */
  lemma StartsWithFirstChar(s: string, prefix: string)
    requires |prefix| > 0
    ensures StartsWith(s, prefix) ==> |s| > 0 && s[0] == prefix[0]
  {
    if StartsWith(s, prefix) {
      assert s[..|prefix|][0] == s[0];
    }
  }

  /** A string ends with whatever was appended to it last. */
  lemma EndsWithAppended(head: string, sep: string, suffix: string)
    ensures EndsWith(head + (sep + suffix), suffix)
  {
    var s := head + (sep + suffix);
    assert s[|s| - |suffix|..] == suffix;
  }

  /** A string whose last character differs from the suffix's last character does not end with it. */
  lemma NotEndsWithLast(s: string, suffix: string)
    requires |s| > 0 && |suffix| > 0 && s[|s| - 1] != suffix[|suffix| - 1]
    ensures !EndsWith(s, suffix)
  {
    if |suffix| <= |s| {
      assert s[|s| - |suffix|..][|suffix| - 1] == s[|s| - 1];
    }
  }

  /** `xs.join(sep)`: the elements in order with `sep` between neighbours. */
  function Join(xs: seq<string>, sep: string): string
    decreases |xs|
  {
    if |xs| == 0 then ""
    else if |xs| == 1 then xs[0]
    else xs[0] + sep + Join(xs[1..], sep)
  }

  /** A join of non-empty pieces is empty exactly when there are no pieces. */
  lemma {:induction false} JoinEmptyIff(xs: seq<string>, sep: string)
    requires forall i :: 0 <= i < |xs| ==> xs[i] != ""
    ensures Join(xs, sep) == "" <==> |xs| == 0
  {
    if |xs| >= 1 {
      assert |Join(xs, sep)| >= |xs[0]| > 0;
    }
  }

  /** Every piece of the join starts at a known offset: the first piece is a prefix. */
  lemma JoinStartsWithFirst(xs: seq<string>, sep: string)
    requires |xs| > 0
    ensures StartsWith(Join(xs, sep), xs[0])
  {
    if |xs| > 1 {
      assert Join(xs, sep) == xs[0] + (sep + Join(xs[1..], sep));
    }
  }

  /** `t` occurs in `s` starting at position `i`. */
  predicate Occurs(s: string, t: string, i: int) {
    0 <= i && i + |t| <= |s| && s[i..i + |t|] == t
  }

  /** Where the `k`-th piece starts in `Join(xs, sep)`: the pieces before it, each followed by `sep`. */
  function PieceOffset(xs: seq<string>, sep: string, k: nat): nat
    requires k <= |xs|
  {
    if k == 0 then 0 else PieceOffset(xs, sep, k - 1) + |xs[k - 1]| + |sep|
  }

  lemma {:induction false} PieceOffsetShift(xs: seq<string>, sep: string, k: nat)
    requires 1 <= k <= |xs|
    ensures PieceOffset(xs, sep, k) == |xs[0]| + |sep| + PieceOffset(xs[1..], sep, k - 1)
  {
    if k > 1 {
      PieceOffsetShift(xs, sep, k - 1);
      assert xs[1..][k - 2] == xs[k - 1];
    }
  }

  lemma OccursShift(pre: string, s: string, t: string, i: int)
    requires Occurs(s, t, i)
    ensures Occurs(pre + s, t, |pre| + i)
  {
    assert (pre + s)[|pre| + i..|pre| + i + |t|] == s[i..i + |t|];
  }

  /** The `k`-th piece of `Join(xs, sep)` sits at its offset, followed by `sep` unless it is the last. */
  lemma {:induction false} JoinPieceAt(xs: seq<string>, sep: string, k: nat)
    requires k < |xs|
    ensures Occurs(Join(xs, sep), xs[k], PieceOffset(xs, sep, k))
    ensures k < |xs| - 1 ==> Occurs(Join(xs, sep), sep, PieceOffset(xs, sep, k) + |xs[k]|)
    decreases k
  {
    if |xs| == 1 {
      assert Join(xs, sep)[0..|xs[0]|] == xs[0];
    } else {
      var rest := xs[1..];
      var pre := xs[0] + sep;
      var tail := Join(rest, sep);
      assert Join(xs, sep) == pre + tail;
      if k == 0 {
        assert (pre + tail)[0..|xs[0]|] == xs[0];
        assert (pre + tail)[|xs[0]|..|xs[0]| + |sep|] == sep;
      } else {
        JoinPieceAt(rest, sep, k - 1);
        PieceOffsetShift(xs, sep, k);
        assert rest[k - 1] == xs[k];
        OccursShift(pre, tail, xs[k], PieceOffset(rest, sep, k - 1));
        if k < |xs| - 1 {
          OccursShift(pre, tail, sep, PieceOffset(rest, sep, k - 1) + |xs[k]|);
        }
      }
    }
  }

  /** Two texts occurring back to back form one occurrence of their concatenation. */
  lemma OccursAdjacent(s: string, a: string, b: string, i: int)
    requires Occurs(s, a, i) && Occurs(s, b, i + |a|)
    ensures Occurs(s, a + b, i)
  {
    assert s[i..i + |a| + |b|] == s[i..i + |a|] + s[i + |a|..i + |a| + |b|];
  }

  /** A piece at offset 0 is a prefix. */
  lemma OccursAtStart(s: string, t: string)
    requires Occurs(s, t, 0)
    ensures StartsWith(s, t)
  {
  }

  /** A text placed between a fixed head and tail can be read back from the result. */
  lemma Sandwich(head: string, middle: string, tail: string)
    ensures var s := head + middle + tail;
            |s| == |head| + |middle| + |tail|
            && s[..|head|] == head
            && s[|head|..|s| - |tail|] == middle
            && s[|s| - |tail|..] == tail
  {
    var s := head + middle + tail;
    assert s[..|head|] == head;
    assert s[|head|..|s| - |tail|] == middle;
  }

  // ---------------------------------------------------------------------------
  // Decimal rendering of non-negative integers (`${n}` in a template literal)
  // ---------------------------------------------------------------------------

  predicate IsDigit(c: char) {
    '0' <= c <= '9'
  }

  predicate AllDigits(s: string) {
    forall i :: 0 <= i < |s| ==> IsDigit(s[i])
  }

  function DigitChar(d: nat): (c: char)
    requires d < 10
    ensures IsDigit(c) && c as int - '0' as int == d
  {
    ('0' as int + d) as char
  }

  /** The decimal digits of `n`, most significant first, without leading zeros. */
  function NatToString(n: nat): (s: string)
    ensures |s| >= 1 && AllDigits(s)
    ensures |s| > 1 ==> s[0] != '0'
    decreases n
  {
    if n < 10 then [DigitChar(n)] else NatToString(n / 10) + [DigitChar(n % 10)]
  }

  /** The value a string of decimal digits denotes. */
  function DigitsValue(s: string): nat
    requires AllDigits(s)
    decreases |s|
  {
    if |s| == 0 then 0
    else DigitsValue(s[..|s| - 1]) * 10 + (s[|s| - 1] as int - '0' as int)
  }

  /** Reading the rendered digits back gives the number: rendering loses nothing. */
  lemma {:induction false} DigitsValueOfNatToString(n: nat)
    ensures DigitsValue(NatToString(n)) == n
    decreases n
  {
    var s := NatToString(n);
    if n >= 10 {
      DigitsValueOfNatToString(n / 10);
      assert s[..|s| - 1] == NatToString(n / 10);
    }
  }

  /** Distinct numbers render to distinct strings. */
  lemma NatToStringInjective(a: nat, b: nat)
    ensures NatToString(a) == NatToString(b) ==> a == b
  {
    DigitsValueOfNatToString(a);
    DigitsValueOfNatToString(b);
  }

  lemma NatToStringInjectiveAll()
    ensures forall a: nat, b: nat :: NatToString(a) == NatToString(b) ==> a == b
  {
    forall a: nat, b: nat ensures NatToString(a) == NatToString(b) ==> a == b {
      NatToStringInjective(a, b);
    }
  }

  // ---------------------------------------------------------------------------
  // String.prototype.trim
  // ---------------------------------------------------------------------------

  /** The WhiteSpace and LineTerminator code points that `trim` removes. */
  predicate IsSpace(c: char) {
    || c == '\t' || c == '\n' || c == '\U{000B}' || c == '\U{000C}' || c == '\r'
    || c == ' ' || c == '\U{00A0}' || c == '\U{1680}'
    || ('\U{2000}' <= c <= '\U{200A}')
    || c == '\U{2028}' || c == '\U{2029}' || c == '\U{202F}' || c == '\U{205F}'
    || c == '\U{3000}' || c == '\U{FEFF}'
  }

  predicate AllSpace(s: string) {
    forall i :: 0 <= i < |s| ==> IsSpace(s[i])
  }

  /** Drops the leading white space: `r` is the suffix of `s` after a run of spaces. */
  function TrimStart(s: string): (r: string)
    ensures |r| <= |s| && r == s[|s| - |r|..]
    ensures AllSpace(s[..|s| - |r|])
    ensures r == [] || !IsSpace(r[0])
    decreases |s|
  {
    if |s| > 0 && IsSpace(s[0]) then
      var r := TrimStart(s[1..]);
      LeadingSpaceExtends(s, |s| - |r|);
      r
    else s
  }

  /** Drops the trailing white space: `r` is the prefix of `s` before a run of spaces. */
  function TrimEnd(s: string): (r: string)
    ensures |r| <= |s| && r == s[..|r|]
    ensures AllSpace(s[|r|..])
    ensures r == [] || !IsSpace(r[|r| - 1])
    decreases |s|
  {
    if |s| > 0 && IsSpace(s[|s| - 1]) then
      var r := TrimEnd(s[..|s| - 1]);
      TrailingSpaceExtends(s, |r|);
      r
    else s
  }

  /** A run of spaces after the first character, preceded by a space, is a run of spaces. */
  lemma LeadingSpaceExtends(s: string, k: nat)
    requires 0 < k <= |s| && IsSpace(s[0]) && AllSpace(s[1..][..k - 1])
    ensures AllSpace(s[..k])
  {
    forall i | 0 < i < k
      ensures IsSpace(s[..k][i])
    {
      assert s[..k][i] == s[1..][..k - 1][i - 1];
    }
  }

  /** A run of spaces before the last character, followed by a space, is a run of spaces. */
  lemma TrailingSpaceExtends(s: string, k: nat)
    requires k < |s| && IsSpace(s[|s| - 1]) && AllSpace(s[..|s| - 1][k..])
    ensures AllSpace(s[k..])
  {
    forall i | 0 <= i < |s| - 1 - k
      ensures IsSpace(s[k..][i])
    {
      assert s[k..][i] == s[..|s| - 1][k..][i];
    }
  }

  function Trim(s: string): string {
    TrimEnd(TrimStart(s))
  }

  /** `s.trim()` is empty exactly when `s` is all white space (the send guard's "blank"). */
  lemma TrimEmptyIff(s: string)
    ensures Trim(s) == "" <==> AllSpace(s)
  {
    var a := TrimStart(s);
    if a != [] {
      assert Trim(s) != "";
    }
  }

  /** The trimmed text neither starts nor ends with white space, and trimming it again changes nothing. */
  lemma TrimIdempotent(s: string)
    ensures var t := Trim(s); t == [] || (!IsSpace(t[0]) && !IsSpace(t[|t| - 1]))
    ensures Trim(Trim(s)) == Trim(s)
  {
    var t := Trim(s);
    var a := TrimStart(s);
    if t != [] {
      assert t[0] == a[0];
    }
  }
}

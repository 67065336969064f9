/** Small shared vocabulary: an optional value, the JavaScript rounding of a
    ratio, timestamps in milliseconds and calendar days, and decimal rendering
    of a number for the messages that interpolate one. */
module Basics {

  datatype Option<+T> = None | Some(value: T)

  function Min(a: int, b: int): int
  {
    if a <= b then a else b
  }

  /** `Math.round(n / d)` for a positive divisor: JavaScript rounds halves up,
      that is floor(n/d + 1/2), which is floor((2n + d) / 2d). */
  function RoundDiv(n: int, d: int): (r: int)
    requires d > 0
    ensures 2 * d * r <= 2 * n + d < 2 * d * (r + 1)
  {
    (2 * n + d) / (2 * d)
  }

  /** `Math.round(100 * part / whole)`, the percentage every accuracy and
      score in the application is reported as. */
  function Percent(part: nat, whole: nat): (r: int)
    requires whole > 0
    ensures part <= whole ==> 0 <= r <= 100
    ensures part == whole ==> r == 100
    ensures part == 0 ==> r == 0
  {
    PercentBounds(part, whole);
    RoundDiv(100 * part, whole)
  }

  lemma PercentBounds(part: nat, whole: nat)
    requires whole > 0
    ensures part <= whole ==> 0 <= RoundDiv(100 * part, whole) <= 100
    ensures part == whole ==> RoundDiv(100 * part, whole) == 100
    ensures part == 0 ==> RoundDiv(100 * part, whole) == 0
  {
    var r := RoundDiv(100 * part, whole);
    var x := 2 * (100 * part) + whole;
    QuotientBetween(2 * whole, r, x, 0);
    QuotientBetween(2 * whole, r, x, 1);
    QuotientBetween(2 * whole, r, x, 100);
    QuotientBetween(2 * whole, r, x, 101);
  }

  /** Locating a quotient: if `d*r <= x < d*(r+1)` then comparing `x` with
      `d*k` compares `r` with `k`. */
  lemma QuotientBetween(d: int, r: int, x: int, k: int)
    requires d > 0 && d * r <= x < d * (r + 1)
    ensures x < d * k ==> r < k
    ensures d * k <= x ==> k <= r
  {
    if r >= k {
      MulMono(d, k, r);
    }
    if k >= r + 1 {
      MulMono(d, r + 1, k);
    }
  }

  lemma MulMono(d: int, a: int, b: int)
    requires d > 0 && a <= b
    ensures d * a <= d * b
  {
    assert d * b - d * a == d * (b - a);
  }

  /** `Math.round(100 * c / (c + i))`, or 0 when nothing was answered. */
  function Accuracy(correct: nat, incorrect: nat): (r: int)
    ensures 0 <= r <= 100
    ensures correct + incorrect == 0 ==> r == 0
    ensures incorrect == 0 && correct > 0 ==> r == 100
  {
    if correct + incorrect > 0 then Percent(correct, correct + incorrect) else 0
  }

  /** `Array.prototype.filter`: the elements satisfying `f`, in order. */
  function Filter<T(!new)>(s: seq<T>, f: T -> bool): (r: seq<T>)
    ensures |r| <= |s|
    ensures forall x :: x in r <==> x in s && f(x)
  {
    if s == [] then [] else (if f(s[0]) then [s[0]] else []) + Filter(s[1..], f)
  }

  /** No element occurs twice. */
  predicate Distinct<T(==)>(s: seq<T>)
  {
    forall i, j :: 0 <= i < j < |s| ==> s[i] != s[j]
  }

  /** The position of the first occurrence of `x` in `xs`. */
  function FirstIndex<T(==)>(xs: seq<T>, x: T): (k: nat)
    requires x in xs
    ensures k < |xs| && xs[k] == x && x !in xs[..k]
  {
    if xs[0] == x then 0
    else
      var k := FirstIndex(xs[1..], x);
      assert xs[..k + 1] == [xs[0]] + xs[1..][..k];
      k + 1
  }

  /** The first occurrence is the only position holding `x` with no `x`
      before it. */
  lemma {:induction false} FirstIndexUnique<T>(xs: seq<T>, x: T, k: nat)
    requires k < |xs| && xs[k] == x && x !in xs[..k]
    ensures FirstIndex(xs, x) == k
  {
    if k > 0 {
      assert xs[0] in xs[..k];
      assert xs[1..][..k - 1] == xs[..k][1..];
      FirstIndexUnique(xs[1..], x, k - 1);
    }
  }

  /** Values occurring in the first `n` elements are first found there. */
  lemma FirstIndicesInPrefix<T>(xs: seq<T>, n: nat, r: seq<T>)
    requires n <= |xs|
    requires forall y :: y in r ==> y in xs[..n] && y in xs
    ensures forall i :: 0 <= i < |r| ==> FirstIndex(xs, r[i]) == FirstIndex(xs[..n], r[i]) < n
  {
    forall i | 0 <= i < |r|
      ensures FirstIndex(xs, r[i]) == FirstIndex(xs[..n], r[i]) < n
    {
      var k := FirstIndex(xs[..n], r[i]);
      assert xs[..n][..k] == xs[..k];
      FirstIndexUnique(xs, r[i], k);
    }
  }

  /** `Array.from(new Set(xs))`: each element once, in order of first
      appearance. */
  function Dedup<T(==,!new)>(xs: seq<T>): (r: seq<T>)
    ensures forall x :: x in r <==> x in xs
    ensures Distinct(r)
    ensures |r| <= |xs|
    ensures forall i, j :: 0 <= i < j < |r| ==> FirstIndex(xs, r[i]) < FirstIndex(xs, r[j])
  {
    if xs == [] then []
    else
      var init := xs[..|xs| - 1];
      var r := Dedup(init);
      var x := xs[|xs| - 1];
      assert xs == init + [x];
      FirstIndicesInPrefix(xs, |xs| - 1, r);
      if x in r then r
      else
        FirstIndexUnique(xs, x, |xs| - 1);
        r + [x]
  }

  // ---------------------------------------------------------------------------
  // Time. A timestamp is a number of milliseconds since the epoch, as held by a
  // JavaScript Date. A calendar day is numbered in a zone given by its fixed
  // offset from UTC in milliseconds (UTC itself is offset 0).

  const MinuteMs: int := 60 * 1000
  const DayMs: int := 24 * 60 * MinuteMs

  /** The number of the calendar day holding instant `ms` in the zone `zone`. */
  function DayOf(ms: int, zone: int): (d: int)
    ensures d * DayMs <= ms + zone < (d + 1) * DayMs
  {
    (ms + zone) / DayMs
  }

  /** The instant `days` whole days after `ms`. */
  function AddDays(ms: int, days: int): (r: int)
    ensures forall zone :: DayOf(r, zone) == DayOf(ms, zone) + days
  {
    ms + days * DayMs
  }

  // ---------------------------------------------------------------------------
  // Decimal rendering, for the template strings that interpolate a count.

  function DigitChar(d: nat): (c: char)
    requires d < 10
    ensures '0' <= c <= '9'
  {
    "0123456789"[d]
  }

  function NatToString(n: nat): (s: string)
    ensures |s| >= 1
    ensures forall i :: 0 <= i < |s| ==> '0' <= s[i] <= '9'
  {
    if n < 10 then [DigitChar(n)] else NatToString(n / 10) + [DigitChar(n % 10)]
  }
}

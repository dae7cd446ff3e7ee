/** Small shared vocabulary: an optional value, the JavaScript `Math` helpers
    the simulation uses (over exact reals), sums and means of real sequences,
    and the ASCII part of `toLowerCase`/`includes` on strings. */
module Common {

  datatype Option<+T> = None | Some(value: T)

  function Min(a: real, b: real): (r: real)
    ensures r <= a && r <= b
    ensures r == a || r == b
  {
    if a <= b then a else b
  }

  function Max(a: real, b: real): (r: real)
    ensures r >= a && r >= b
    ensures r == a || r == b
  {
    if a >= b then a else b
  }

  /** `Math.min` on counts. */
  function MinNat(a: nat, b: nat): (r: nat)
    ensures r <= a && r <= b
    ensures r == a || r == b
  {
    if a <= b then a else b
  }

  function Abs(x: real): (r: real)
    ensures r >= 0.0
    ensures r == x || r == -x
  {
    if x < 0.0 then -x else x
  }

  /** `Math.sign`: -1, 0 or 1. */
  function Sign(x: real): (r: real)
    ensures x > 0.0 ==> r == 1.0
    ensures x < 0.0 ==> r == -1.0
    ensures x == 0.0 ==> r == 0.0
  {
    if x > 0.0 then 1.0 else if x < 0.0 then -1.0 else 0.0
  }

  /** `Math.max(lo, Math.min(hi, x))`, the clamp idiom of the source, argument
      order included: when `hi < lo` the lower bound wins. */
  function Clamp(x: real, lo: real, hi: real): (r: real)
    ensures r >= lo
    ensures lo <= hi ==> r <= hi
    ensures lo <= x <= hi ==> r == x
    ensures x < lo ==> r == lo
    ensures lo <= hi && x > hi ==> r == hi
  {
    Max(lo, Min(hi, x))
  }

  /** Clamping into an interval that already holds `a` never carries a value
      further from `a`: the clamped value lies between `a` and `x`. */
  lemma ClampBetween(a: real, x: real, lo: real, hi: real)
    requires lo <= a <= hi
    ensures Min(a, x) <= Clamp(x, lo, hi) <= Max(a, x)
  {
  }

  /** A step of at most `max` stays one after clamping into an interval
      holding the starting point. */
  lemma ClampKeepsStep(previous: real, x: real, lo: real, hi: real, max: real)
    requires -max <= x - previous <= max
    ensures lo <= previous <= hi ==> -max <= Clamp(x, lo, hi) - previous <= max
  {
    if lo <= previous <= hi {
      ClampBetween(previous, x, lo, hi);
    }
  }

  lemma ClampMonotone(x: real, y: real, lo: real, hi: real)
    requires x <= y
    ensures Clamp(x, lo, hi) <= Clamp(y, lo, hi)
  {
  }

  lemma ProductNonNegative(x: real, y: real)
    requires x >= 0.0 && y >= 0.0
    ensures x * y >= 0.0
  {
  }

  /** A part of a positive whole is between 0 and 100 per cent of it. */
  lemma PercentBounds(part: real, whole: real)
    requires whole > 0.0
    requires 0.0 <= part <= whole
    ensures 0.0 <= (part / whole) * 100.0 <= 100.0
  {
    assert part / whole <= 1.0 by {
      assert (part / whole) * whole == part;
    }
  }

  /** A fraction in `[0, 1]` of a non-negative whole lies between 0 and it. */
  lemma FractionOf(f: real, whole: real)
    requires 0.0 <= f <= 1.0 && whole >= 0.0
    ensures 0.0 <= f * whole <= whole
  {
    assert (1.0 - f) * whole >= 0.0;
  }

  /** A percentage turned into a count of a non-zero whole and back is
      unchanged. */
  lemma PercentRoundTrip(pct: real, whole: real)
    requires whole != 0.0
    ensures (((pct / 100.0) * whole) / whole) * 100.0 == pct
  {
    assert ((pct / 100.0) * whole) / whole == pct / 100.0;
  }

  /** A proper fraction of a positive whole lies strictly inside it. */
  lemma ProperFractionOf(f: real, whole: real)
    requires 0.0 < f < 1.0 && whole > 0.0
    ensures 0.0 < f * whole < whole
  {
    assert (1.0 - f) * whole > 0.0;
  }

  /** A real with no fractional part. */
  predicate Integral(x: real)
  {
    x == x.Floor as real
  }

  /** `Math.floor`, as a real. */
  function FloorR(x: real): (r: real)
    ensures r <= x < r + 1.0
    ensures Integral(r)
    ensures Integral(x) ==> r == x
  {
    assert ((x.Floor as real).Floor) == x.Floor;
    x.Floor as real
  }

  /** Flooring never drops below an integral lower bound. */
  lemma FloorAtLeast(x: real, lo: real)
    requires Integral(lo) && lo <= x
    ensures lo <= FloorR(x)
  {
    var n := lo.Floor;
    assert n as real <= x;
    assert x < (x.Floor as real) + 1.0;
    assert n < x.Floor + 1;
  }

  /** Flooring a value within one of an integer keeps it within one. */
  lemma FloorWithinOne(n: real, x: real)
    requires Integral(n) && -1.0 <= x - n <= 1.0
    ensures -1.0 <= FloorR(x) - n <= 1.0
  {
    var k := n.Floor;
    assert x.Floor as real <= x;
    assert (k - 1) as real <= x;
    assert k - 1 <= x.Floor;
  }

  /** Integral reals are closed under difference and under a step of one. */
  lemma IntegralArith(a: real, b: real)
    requires Integral(a) && Integral(b)
    ensures Integral(a - b) && Integral(a + 1.0) && Integral(a - 1.0)
  {
    var i := a.Floor;
    var j := b.Floor;
    assert a - b == (i - j) as real;
    assert ((i - j) as real).Floor == i - j;
    assert a + 1.0 == (i + 1) as real;
    assert ((i + 1) as real).Floor == i + 1;
    assert a - 1.0 == (i - 1) as real;
    assert ((i - 1) as real).Floor == i - 1;
  }

  /** `Math.round`: halves go towards positive infinity. */
  function Round(x: real): (r: int)
    ensures x - 0.5 < r as real <= x + 0.5
  {
    (x + 0.5).Floor
  }

  /** `parseFloat(x.toFixed(1))` over exact reals: the nearest tenth, a
      tie going away from zero. */
  function ToFixed1(x: real): (r: real)
    ensures Integral(10.0 * r)
    ensures x >= 0.0 ==> x - 0.05 < r <= x + 0.05 && r >= 0.0
    ensures x < 0.0 ==> x - 0.05 <= r < x + 0.05 && r <= 0.0
  {
    var n := if x >= 0.0 then Round(10.0 * x) else -Round(-10.0 * x);
    assert (n as real).Floor == n;
    assert 10.0 * (n as real / 10.0) == n as real;
    n as real / 10.0
  }

  /** A non-negative figure shows above the tenth `t` exactly when it
      reaches half a tenth past it. */
  lemma ToFixed1Exceeds(x: real, t: int)
    requires x >= 0.0
    ensures ToFixed1(x) > t as real / 10.0 <==> x >= t as real / 10.0 + 0.05
  {
    var n := Round(10.0 * x);
    assert ToFixed1(x) == n as real / 10.0;
    assert n as real / 10.0 > t as real / 10.0 <==> n > t;
    assert n == (10.0 * x + 0.5).Floor;
  }

  /** ASCII part of `toLowerCase`. */
  function LowerChar(c: char): (r: char)
    ensures 'A' <= c <= 'Z' ==> 'a' <= r <= 'z'
    ensures !('A' <= c <= 'Z') ==> r == c
  {
    if 'A' <= c <= 'Z' then (c as int - 'A' as int + 'a' as int) as char else c
  }

  function Lower(s: string): (r: string)
    ensures |r| == |s|
    ensures forall i :: 0 <= i < |s| ==> r[i] == LowerChar(s[i])
  {
    seq(|s|, i requires 0 <= i < |s| => LowerChar(s[i]))
  }

  predicate OccursAt(s: string, sub: string, i: int)
  {
    0 <= i <= |s| - |sub| && s[i..i + |sub|] == sub
  }

  /** `s.includes(sub)`: `sub` occurs in `s` at some offset. */
  predicate Contains(s: string, sub: string)
  {
    exists i | 0 <= i <= |s| - |sub| :: OccursAt(s, sub, i)
  }

  /** `s.toLowerCase().includes(sub.toLowerCase())`. */
  predicate ContainsIgnoringCase(s: string, sub: string)
  {
    Contains(Lower(s), Lower(sub))
  }

  /** `xs.filter(p)`: the elements satisfying `p`, in order. */
  function Filter<T(!new)>(xs: seq<T>, p: T -> bool): (r: seq<T>)
    ensures |r| <= |xs|
    ensures forall x :: x in r <==> x in xs && p(x)
    ensures multiset(r) <= multiset(xs)
  {
    if |xs| == 0 then []
    else
      var rest := Filter(xs[1..], p);
      assert xs == [xs[0]] + xs[1..];
      if p(xs[0]) then [xs[0]] + rest else rest
  }

  /** Every element survives the filter exactly when none is dropped. */
  lemma {:induction false} FilterKeepsAll<T(!new)>(xs: seq<T>, p: T -> bool)
    ensures |Filter(xs, p)| == |xs| <==> forall i :: 0 <= i < |xs| ==> p(xs[i])
  {
    if |xs| > 0 {
      FilterKeepsAll(xs[1..], p);
      assert forall i :: 1 <= i < |xs| ==> xs[i] == xs[1..][i - 1];
      if !p(xs[0]) {
        assert |Filter(xs, p)| <= |xs[1..]|;
      }
    }
  }

  /** `xs.reduce((acc, x) => acc + f(x), 0)`. */
  function SumBy<T>(xs: seq<T>, f: T -> real): real
  {
    if |xs| == 0 then 0.0 else f(xs[0]) + SumBy(xs[1..], f)
  }

  lemma {:induction false} SumByLe<T>(xs: seq<T>, f: T -> real, g: T -> real)
    requires forall i :: 0 <= i < |xs| ==> f(xs[i]) <= g(xs[i])
    ensures SumBy(xs, f) <= SumBy(xs, g)
  {
    if |xs| > 0 {
      assert forall i :: 1 <= i < |xs| ==> xs[i] == xs[1..][i - 1];
      SumByLe(xs[1..], f, g);
    }
  }

  lemma {:induction false} SumByNonNegative<T>(xs: seq<T>, f: T -> real)
    requires forall i :: 0 <= i < |xs| ==> f(xs[i]) >= 0.0
    ensures SumBy(xs, f) >= 0.0
  {
    if |xs| > 0 {
      assert forall i :: 1 <= i < |xs| ==> xs[i] == xs[1..][i - 1];
      SumByNonNegative(xs[1..], f);
    }
  }

  lemma {:induction false} SumByScale<T>(xs: seq<T>, f: T -> real, g: T -> real, c: real)
    requires forall i :: 0 <= i < |xs| ==> g(xs[i]) == c * f(xs[i])
    ensures SumBy(xs, g) == c * SumBy(xs, f)
  {
    if |xs| > 0 {
      assert forall i :: 1 <= i < |xs| ==> xs[i] == xs[1..][i - 1];
      SumByScale(xs[1..], f, g, c);
    }
  }

  /** Every term in `[lo, hi]` puts the sum in `[lo·n, hi·n]`. */
  lemma {:induction false} SumByBounds<T>(xs: seq<T>, f: T -> real, lo: real, hi: real)
    requires forall i :: 0 <= i < |xs| ==> lo <= f(xs[i]) <= hi
    ensures lo * (|xs| as real) <= SumBy(xs, f) <= hi * (|xs| as real)
  {
    if |xs| > 0 {
      assert forall i :: 1 <= i < |xs| ==> xs[i] == xs[1..][i - 1];
      SumByBounds(xs[1..], f, lo, hi);
      assert lo <= f(xs[0]) <= hi;
      assert SumBy(xs, f) == f(xs[0]) + SumBy(xs[1..], f);
      var n := |xs[1..]| as real;
      var m := |xs| as real;
      assert m == n + 1.0;
      assert lo * m == lo * n + lo;
      assert hi * m == hi * n + hi;
      assert lo * n + lo <= SumBy(xs, f) <= hi * n + hi;
    }
  }

  /** `xs.reduce((acc, x) => acc + f(x), 0) / xs.length`. */
  function MeanBy<T>(xs: seq<T>, f: T -> real): real
    requires |xs| > 0
  {
    SumBy(xs, f) / (|xs| as real)
  }

  /** The mean lies between any common lower and upper bound of the terms. */
  lemma MeanByBounds<T>(xs: seq<T>, f: T -> real, lo: real, hi: real)
    requires |xs| > 0
    requires forall i :: 0 <= i < |xs| ==> lo <= f(xs[i]) <= hi
    ensures lo <= MeanBy(xs, f) <= hi
  {
    SumByBounds(xs, f, lo, hi);
    var n := |xs| as real;
    var m := MeanBy(xs, f);
    assert m * n == SumBy(xs, f);
    assert (m - lo) * n >= 0.0;
    assert (hi - m) * n >= 0.0;
  }

  /** Filtering with a predicate every element meets changes nothing. */
  lemma {:induction false} FilterAll<T(!new)>(xs: seq<T>, p: T -> bool)
    requires forall i :: 0 <= i < |xs| ==> p(xs[i])
    ensures Filter(xs, p) == xs
  {
    if |xs| > 0 {
      assert forall i :: 1 <= i < |xs| ==> xs[i] == xs[1..][i - 1];
      FilterAll(xs[1..], p);
      assert xs == [xs[0]] + xs[1..];
    }
  }

  /** Filtering distributes over concatenation. */
  lemma {:induction false} FilterAppend<T(!new)>(xs: seq<T>, ys: seq<T>, p: T -> bool)
    ensures Filter(xs + ys, p) == Filter(xs, p) + Filter(ys, p)
  {
    if |xs| == 0 {
      assert xs + ys == ys;
    } else {
      assert (xs + ys)[1..] == xs[1..] + ys;
      FilterAppend(xs[1..], ys, p);
    }
  }

  /** The filter keeps every copy of a value it accepts and none of one it
      rejects. */
  lemma {:induction false} FilterMultiset<T(!new)>(xs: seq<T>, p: T -> bool, x: T)
    ensures multiset(Filter(xs, p))[x] == if p(x) then multiset(xs)[x] else 0
  {
    if |xs| > 0 {
      FilterMultiset(xs[1..], p, x);
      assert xs == [xs[0]] + xs[1..];
    }
  }

  lemma FilterMultisetAll<T(!new)>(xs: seq<T>, p: T -> bool)
    ensures forall x :: multiset(Filter(xs, p))[x] == if p(x) then multiset(xs)[x] else 0
  {
    forall x
      ensures multiset(Filter(xs, p))[x] == if p(x) then multiset(xs)[x] else 0
    {
      FilterMultiset(xs, p, x);
    }
  }

  /** The filter's length counts the positions whose element it accepts. */
  lemma {:induction false} FilterCountsIndices<T(!new)>(xs: seq<T>, p: T -> bool)
    ensures |Filter(xs, p)| == |set i | 0 <= i < |xs| && p(xs[i])|
  {
    if |xs| > 0 {
      var init := xs[..|xs| - 1];
      FilterCountsIndices(init, p);
      assert xs == init + [xs[|xs| - 1]];
      FilterAppend(init, [xs[|xs| - 1]], p);
      IndicesStep(xs, init, p);
    }
  }

  /** The same count, for any set described by its members. */
  lemma FilterCountsSet<T(!new)>(xs: seq<T>, p: T -> bool, s: set<int>)
    requires forall i :: i in s <==> 0 <= i < |xs| && p(xs[i])
    ensures |Filter(xs, p)| == |s|
  {
    FilterCountsIndices(xs, p);
    assert s == set i | 0 <= i < |xs| && p(xs[i]);
  }

  lemma IndicesStep<T>(xs: seq<T>, init: seq<T>, p: T -> bool)
    requires |xs| > 0 && init == xs[..|xs| - 1]
    ensures |set i | 0 <= i < |xs| && p(xs[i])|
         == |set i | 0 <= i < |init| && p(init[i])| + (if p(xs[|xs| - 1]) then 1 else 0)
  {
    var before := set i | 0 <= i < |init| && p(init[i]);
    IndicesSplit(xs, init, p);
    assert |xs| - 1 !in before;
  }

  /** The matching indices of `xs` are those of its initial part, plus the
      last index when the last element matches. */
  lemma IndicesSplit<T>(xs: seq<T>, init: seq<T>, p: T -> bool)
    requires |xs| > 0 && init == xs[..|xs| - 1]
    ensures (set i | 0 <= i < |xs| && p(xs[i]))
         == (set i | 0 <= i < |init| && p(init[i])) + (if p(xs[|xs| - 1]) then {|xs| - 1} else {})
  {
    var n := |xs|;
    var before := set i | 0 <= i < |init| && p(init[i]);
    forall i | 0 <= i < n - 1
      ensures init[i] == xs[i]
    {
    }
    assert before == set i | 0 <= i < n - 1 && p(xs[i]);
  }

  /** Two filters in a row are one filter by the conjunction. */
  lemma {:induction false} FilterFilter<T(!new)>(xs: seq<T>, p: T -> bool, q: T -> bool, pq: T -> bool)
    requires forall x :: pq(x) == (p(x) && q(x))
    ensures Filter(Filter(xs, p), q) == Filter(xs, pq)
  {
    if |xs| > 0 {
      FilterFilter(xs[1..], p, q, pq);
      if p(xs[0]) {
        assert Filter(xs, p) == [xs[0]] + Filter(xs[1..], p);
        assert Filter(xs, p)[1..] == Filter(xs[1..], p);
      }
    }
  }

  /** A part of a positive whole lies between `lo` and `hi` per cent exactly
      when it lies between those fractions of the whole. */
  lemma PercentBetween(part: real, whole: real, lo: real, hi: real)
    requires whole > 0.0
    ensures (lo <= (part / whole) * 100.0) == (lo / 100.0 * whole <= part)
    ensures ((part / whole) * 100.0 <= hi) == (part <= hi / 100.0 * whole)
  {
    var q := part / whole;
    assert q * whole == part;
    assert (q - lo / 100.0) * whole == part - lo / 100.0 * whole;
    assert (hi / 100.0 - q) * whole == hi / 100.0 * whole - part;
  }
}

/**
 * The statistics core of the pattern-insight engine (`lib/pattern-insight.ts`):
 * mean, population standard deviation, Pearson correlation, percentile and
 * rounding to the nearest step, over exact reals.
 */
module Stats {
  import opened Numeric

  function Sum(values: seq<real>): real {
    if values == [] then 0.0 else values[0] + Sum(values[1..])
  }

  /** `mean`: the arithmetic mean, 0 for an empty sequence. */
  function Mean(values: seq<real>): (r: real)
    ensures values == [] ==> r == 0.0
  {
    if values == [] then 0.0 else Sum(values) / |values| as real
  }

  lemma SquareNonNegative(d: real)
    ensures d * d >= 0.0
  {
    if d < 0.0 {
      assert d * d == (-d) * (-d);
    }
  }

  /** Sum of squared deviations from `avg`. */
  function SquaredDeviations(values: seq<real>, avg: real): (r: real)
    ensures r >= 0.0
  {
    if values == [] then 0.0
    else
      SquareNonNegative(values[0] - avg);
      (values[0] - avg) * (values[0] - avg) + SquaredDeviations(values[1..], avg)
  }

  /** `stdDev`: the population standard deviation, 0 for an empty sequence. */
  function StdDev(values: seq<real>, sqrt: real -> real): (r: real)
    ensures values == [] ==> r == 0.0
  {
    if values == [] then 0.0
    else sqrt(SquaredDeviations(values, Mean(values)) / |values| as real)
  }

  lemma {:induction false} SumConstant(values: seq<real>, c: real)
    requires forall i :: 0 <= i < |values| ==> values[i] == c
    ensures Sum(values) == |values| as real * c
  {
    if values != [] {
      SumConstant(values[1..], c);
    }
  }

  lemma {:induction false} SumBounds(values: seq<real>, lo: real, hi: real)
    requires forall i :: 0 <= i < |values| ==> lo <= values[i] <= hi
    ensures |values| as real * lo <= Sum(values) <= |values| as real * hi
  {
    if values != [] {
      SumBounds(values[1..], lo, hi);
    }
  }

  /** The mean of values within [lo, hi] lies within [lo, hi]. */
  lemma MeanBounds(values: seq<real>, lo: real, hi: real)
    requires values != []
    requires forall i :: 0 <= i < |values| ==> lo <= values[i] <= hi
    ensures lo <= Mean(values) <= hi
  {
    SumBounds(values, lo, hi);
    QuotientBounds(Sum(values), |values| as real, lo, hi);
  }

  /** Dividing a value between `n * lo` and `n * hi` by a positive `n` lands in [lo, hi]. */
  lemma QuotientBounds(s: real, n: real, lo: real, hi: real)
    requires n > 0.0 && n * lo <= s <= n * hi
    ensures lo <= s / n <= hi
  {
  }

  /** The mean of a constant sequence is that constant. */
  lemma MeanConstant(values: seq<real>, c: real)
    requires values != []
    requires forall i :: 0 <= i < |values| ==> values[i] == c
    ensures Mean(values) == c
  {
    SumConstant(values, c);
  }

  lemma {:induction false} SquaredDeviationsConstant(values: seq<real>, c: real)
    requires forall i :: 0 <= i < |values| ==> values[i] == c
    ensures SquaredDeviations(values, c) == 0.0
  {
    if values != [] {
      SquaredDeviationsConstant(values[1..], c);
    }
  }

  /** A constant sequence has standard deviation exactly 0. */
  lemma StdDevConstant(values: seq<real>, c: real, sqrt: real -> real)
    requires SqrtLaws(sqrt)
    requires forall i :: 0 <= i < |values| ==> values[i] == c
    ensures StdDev(values, sqrt) == 0.0
  {
    if values != [] {
      MeanConstant(values, c);
      SquaredDeviationsConstant(values, c);
    }
  }

  /** A standard deviation is never negative. */
  lemma StdDevNonNegative(values: seq<real>, sqrt: real -> real)
    requires SqrtLaws(sqrt)
    ensures StdDev(values, sqrt) >= 0.0
  {
  }

  /** Sum of products of paired deviations, the numerator of the correlation. */
  function CoDeviation(xs: seq<real>, ys: seq<real>, mx: real, my: real): real
    requires |xs| == |ys|
  {
    if xs == [] then 0.0
    else (xs[0] - mx) * (ys[0] - my) + CoDeviation(xs[1..], ys[1..], mx, my)
  }

  /**
   * `pearsonCorrelation`: 0 when the lengths differ or there are fewer than three
   * points, and 0 when the square root of the product of the two sums of squared
   * deviations is 0.
   */
  function Pearson(xs: seq<real>, ys: seq<real>, sqrt: real -> real): (r: real)
    ensures |xs| != |ys| || |xs| < 3 ==> r == 0.0
  {
    if |xs| != |ys| || |xs| < 3 then 0.0
    else
      var mx := Mean(xs);
      var my := Mean(ys);
      var numerator := CoDeviation(xs, ys, mx, my);
      var denomX := CoDeviation(xs, xs, mx, mx);
      var denomY := CoDeviation(ys, ys, my, my);
      PearsonFromParts(numerator, denomX, denomY, sqrt)
  }

  lemma {:induction false} CoDeviationSymmetric(xs: seq<real>, ys: seq<real>, mx: real, my: real)
    requires |xs| == |ys|
    ensures CoDeviation(xs, ys, mx, my) == CoDeviation(ys, xs, my, mx)
  {
    if xs != [] {
      CoDeviationSymmetric(xs[1..], ys[1..], mx, my);
    }
  }

  lemma {:induction false} CoDeviationIsSquares(xs: seq<real>, mx: real)
    ensures CoDeviation(xs, xs, mx, mx) == SquaredDeviations(xs, mx)
  {
    if xs != [] {
      CoDeviationIsSquares(xs[1..], mx);
    }
  }

  /** The correlation does not depend on which sequence comes first. */
  lemma PearsonSymmetric(xs: seq<real>, ys: seq<real>, sqrt: real -> real)
    ensures Pearson(xs, ys, sqrt) == Pearson(ys, xs, sqrt)
  {
    if |xs| == |ys| && |xs| >= 3 {
      CoDeviationSymmetric(xs, ys, Mean(xs), Mean(ys));
      var dx := CoDeviation(xs, xs, Mean(xs), Mean(xs));
      var dy := CoDeviation(ys, ys, Mean(ys), Mean(ys));
      assert dx * dy == dy * dx;
    }
  }

  /** A sequence without spread (either one) has correlation 0. */
  lemma PearsonZeroSpread(xs: seq<real>, ys: seq<real>, sqrt: real -> real)
    requires SqrtLaws(sqrt)
    requires |xs| == |ys|
    requires SquaredDeviations(xs, Mean(xs)) == 0.0 || SquaredDeviations(ys, Mean(ys)) == 0.0
    ensures Pearson(xs, ys, sqrt) == 0.0
  {
    CoDeviationIsSquares(xs, Mean(xs));
    CoDeviationIsSquares(ys, Mean(ys));
  }

  /** A constant sequence (of either argument) has correlation 0. */
  lemma PearsonConstant(xs: seq<real>, ys: seq<real>, c: real, sqrt: real -> real)
    requires SqrtLaws(sqrt)
    requires |xs| == |ys|
    requires forall i :: 0 <= i < |xs| ==> xs[i] == c
    ensures Pearson(xs, ys, sqrt) == 0.0
  {
    if xs != [] {
      MeanConstant(xs, c);
      SquaredDeviationsConstant(xs, c);
    }
    PearsonZeroSpread(xs, ys, sqrt);
  }

  /**
   * `roundToNearest(value, step)`: the multiple of `step` nearest to `value`,
   * halves rounded up. Every call site uses a positive integer step.
   */
  function RoundToNearest(value: real, step: int): (r: int)
    requires step > 0
    ensures r % step == 0
    ensures value - step as real * 0.5 < r as real <= value + step as real * 0.5
  {
    var s := step as real;
    var k := Round(value / s);
    ScaleBounds(value / s, s, k as real, value);
    MultipleMod(k, step);
    assert (k * step) as real == k as real * s;
    k * step
  }

  lemma ScaleBounds(x: real, s: real, k: real, value: real)
    requires s > 0.0
    requires x * s == value
    requires x - 0.5 < k <= x + 0.5
    ensures value - s * 0.5 < k * s <= value + s * 0.5
  {
    var d := k - x + 0.5;
    assert d > 0.0;
    assert d * s > 0.0;
    assert d * s == k * s - x * s + s * 0.5;
    assert k * s - value + s * 0.5 > 0.0;
    var e := x + 0.5 - k;
    assert e * s >= 0.0;
    assert e * s == x * s + s * 0.5 - k * s;
  }

  lemma MultipleMod(k: int, step: int)
    requires step > 0
    ensures (k * step) % step == 0
  {
    var q := (k * step) / step;
    var rem := (k * step) % step;
    assert rem == (k - q) * step;
    MulSign(k - q, step);
  }

  lemma MulSign(d: int, s: int)
    requires s > 0
    ensures d >= 1 ==> d * s >= s
    ensures d <= -1 ==> d * s <= -s
  {
  }

  predicate SortedAsc(s: seq<int>) {
    forall i, j :: 0 <= i < j < |s| ==> s[i] <= s[j]
  }

  /** Places `x` into an ascending sequence. */
  function InsertAsc(x: int, s: seq<int>): (r: seq<int>)
    requires SortedAsc(s)
    ensures |r| == |s| + 1
    ensures SortedAsc(r)
    ensures multiset(r) == multiset(s) + multiset{x}
  {
    if s == [] || x <= s[0] then
      AscFront(x, s);
      [x] + s
    else
      var rest := InsertAsc(x, s[1..]);
      AscBehind(x, s, rest);
      [s[0]] + rest
  }

  /** Putting a value no larger than all of an ascending list in front keeps it ascending. */
  lemma AscCons(h: int, t: seq<int>)
    requires SortedAsc(t)
    requires forall k :: 0 <= k < |t| ==> h <= t[k]
    ensures SortedAsc([h] + t)
  {
    var r := [h] + t;
    forall i, j | 0 <= i < j < |r|
      ensures r[i] <= r[j]
    {
      assert r[j] == t[j - 1];
      if i > 0 {
        assert r[i] == t[i - 1];
      }
    }
  }

  lemma AscFront(x: int, s: seq<int>)
    requires SortedAsc(s)
    requires s == [] || x <= s[0]
    ensures SortedAsc([x] + s)
    ensures multiset([x] + s) == multiset(s) + multiset{x}
  {
    assert forall k :: 0 <= k < |s| ==> x <= s[k] by {
      if s != [] {
        assert forall k :: 0 < k < |s| ==> s[0] <= s[k];
      }
    }
    AscCons(x, s);
  }

  lemma AscBehind(x: int, s: seq<int>, rest: seq<int>)
    requires SortedAsc(s) && s != [] && s[0] < x
    requires SortedAsc(rest) && |rest| == |s|
    requires multiset(rest) == multiset(s[1..]) + multiset{x}
    ensures SortedAsc([s[0]] + rest)
    ensures multiset([s[0]] + rest) == multiset(s) + multiset{x}
  {
    forall k | 0 <= k < |rest|
      ensures s[0] <= rest[k]
    {
      assert rest[k] in multiset(rest);
      if rest[k] != x {
        assert rest[k] in multiset(s[1..]);
        var m :| 0 <= m < |s[1..]| && s[1..][m] == rest[k];
        assert s[m + 1] == rest[k];
      }
    }
    AscCons(s[0], rest);
    assert s == [s[0]] + s[1..];
    assert forall k :: 0 < k < |[s[0]] + rest| ==> ([s[0]] + rest)[k] == rest[k - 1];
  }

  /** `[...values].sort((a, b) => a - b)`: ascending order of the same values. */
  function SortAsc(values: seq<int>): (r: seq<int>)
    ensures SortedAsc(r)
    ensures multiset(r) == multiset(values)
    ensures |r| == |values|
  {
    if values == [] then []
    else
      assert values == [values[0]] + values[1..];
      var r := InsertAsc(values[0], SortAsc(values[1..]));
      assert |r| == |multiset(r)|;
      r
  }

  /** The position `floor(p * (n - 1))` clamped into `[0, n - 1]`. */
  function PercentileIndex(n: nat, p: real): (i: int)
    requires n > 0
    ensures 0 <= i < n
    ensures p <= 0.0 ==> i == 0
    ensures p >= 1.0 ==> i == n - 1
  {
    var raw := (p * (n - 1) as real).Floor;
    ScaleIndex(n - 1, p);
    ClampInt(raw, 0, n - 1)
  }

  /** Scaling a non-negative length by `p` floors below 0 for `p <= 0` and to at least the length for `p >= 1`. */
  lemma ScaleIndex(m: nat, p: real)
    ensures p <= 0.0 ==> (p * m as real).Floor <= 0
    ensures p >= 1.0 ==> (p * m as real).Floor >= m
  {
    if p <= 0.0 {
      assert p * m as real <= 0.0;
    }
    if p >= 1.0 {
      assert p * m as real >= 1.0 * m as real;
    }
  }

  /**
   * `percentile(values, p)`: the element at position `floor(p * (n - 1))` of the
   * ascending order, the position clamped into range; 0 for an empty sequence.
   */
  function Percentile(values: seq<int>, p: real): (r: int)
    ensures values == [] ==> r == 0
    ensures values != [] ==> r in values
  {
    if values == [] then 0
    else
      var sorted := SortAsc(values);
      var index := PercentileIndex(|sorted|, p);
      assert sorted[index] in multiset(sorted);
      sorted[index]
  }

  /** Percentile 0 (or below) is the minimum and percentile 1 (or above) the maximum. */
  lemma PercentileExtremes(values: seq<int>, p: real)
    requires values != []
    ensures p <= 0.0 ==> forall v :: v in values ==> Percentile(values, p) <= v
    ensures p >= 1.0 ==> forall v :: v in values ==> v <= Percentile(values, p)
  {
    var sorted := SortAsc(values);
    assert Percentile(values, p) == sorted[PercentileIndex(|sorted|, p)];
    SortedEnds(values);
  }

  /** The ascending order starts with the minimum and ends with the maximum. */
  lemma SortedEnds(values: seq<int>)
    requires values != []
    ensures forall v :: v in values ==> SortAsc(values)[0] <= v <= SortAsc(values)[|values| - 1]
  {
    var sorted := SortAsc(values);
    forall v | v in values
      ensures sorted[0] <= v <= sorted[|values| - 1]
    {
      assert v in multiset(sorted);
      var k :| 0 <= k < |sorted| && sorted[k] == v;
    }
  }

  /** Any percentile lies between the minimum and the maximum. */
  lemma PercentileBetween(values: seq<int>, p: real, lo: int, hi: int)
    requires forall v :: v in values ==> lo <= v <= hi
    requires values != []
    ensures lo <= Percentile(values, p) <= hi
  {
  }

  // ---------------------------------------------------------------------------
  // Reductions over records, for the order-independence of the aggregates.

  /** The per-record value `f` of every record, in order (`records.map(f)`). */
  function Project<T>(records: seq<T>, f: T -> real): (r: seq<real>)
    ensures |r| == |records|
    ensures forall i :: 0 <= i < |records| ==> r[i] == f(records[i])
  {
    seq(|records|, i requires 0 <= i < |records| => f(records[i]))
  }

  function SumOf<T>(records: seq<T>, f: T -> real): real {
    if records == [] then 0.0 else f(records[0]) + SumOf(records[1..], f)
  }

  lemma {:induction false} SumOfAppend<T>(a: seq<T>, b: seq<T>, f: T -> real)
    ensures SumOf(a + b, f) == SumOf(a, f) + SumOf(b, f)
  {
    if a == [] {
      assert a + b == b;
    } else {
      assert (a + b)[1..] == a[1..] + b;
      SumOfAppend(a[1..], b, f);
    }
  }

  lemma MultisetRemove<T>(b: seq<T>, i: nat)
    requires i < |b|
    ensures multiset(b[..i] + b[i + 1..]) == multiset(b) - multiset{b[i]}
  {
    assert b == b[..i] + [b[i]] + b[i + 1..];
  }

  lemma SumOfRemove<T>(b: seq<T>, i: nat, f: T -> real)
    requires i < |b|
    ensures SumOf(b, f) == f(b[i]) + SumOf(b[..i] + b[i + 1..], f)
  {
    assert b == b[..i] + ([b[i]] + b[i + 1..]);
    SumOfAppend(b[..i], [b[i]] + b[i + 1..], f);
    SumOfAppend([b[i]], b[i + 1..], f);
    SumOfAppend(b[..i], b[i + 1..], f);
  }

  /** A sum over records does not depend on their order. */
  lemma {:induction false} SumOfPermutation<T>(a: seq<T>, b: seq<T>, f: T -> real)
    requires multiset(a) == multiset(b)
    ensures SumOf(a, f) == SumOf(b, f)
    decreases |a|
  {
    if a == [] {
      assert |b| == |multiset(b)| == 0;
    } else {
      assert a[0] in multiset(b);
      var i :| 0 <= i < |b| && b[i] == a[0];
      RemoveMatching(a, b, i);
      SumOfPermutation(a[1..], b[..i] + b[i + 1..], f);
      SumOfRemove(b, i, f);
    }
  }

  /** Taking the first element from one side and an equal element from the other keeps the multisets equal. */
  lemma RemoveMatching<T>(a: seq<T>, b: seq<T>, i: nat)
    requires multiset(a) == multiset(b) && a != [] && i < |b| && b[i] == a[0]
    ensures multiset(a[1..]) == multiset(b[..i] + b[i + 1..])
  {
    assert a == [a[0]] + a[1..];
    MultisetRemove(b, i);
  }

  lemma {:induction false} SumProject<T>(records: seq<T>, f: T -> real)
    ensures Sum(Project(records, f)) == SumOf(records, f)
  {
    if records != [] {
      assert Project(records, f)[1..] == Project(records[1..], f);
      SumProject(records[1..], f);
    }
  }

  lemma {:induction false} CoDeviationProject<T>(records: seq<T>, f: T -> real, g: T -> real, mx: real, my: real)
    ensures CoDeviation(Project(records, f), Project(records, g), mx, my)
         == SumOf(records, r => (f(r) - mx) * (g(r) - my))
  {
    if records != [] {
      var h := r => (f(r) - mx) * (g(r) - my);
      var xs, ys := Project(records, f), Project(records, g);
      var head := (xs[0] - mx) * (ys[0] - my);
      var rest := CoDeviation(Project(records[1..], f), Project(records[1..], g), mx, my);
      assert CoDeviation(xs, ys, mx, my) == head + rest by {
        assert xs[1..] == Project(records[1..], f);
        assert ys[1..] == Project(records[1..], g);
      }
      assert SumOf(records, h) == head + SumOf(records[1..], h) by {
        assert h(records[0]) == head;
      }
      CoDeviationProject(records[1..], f, g, mx, my);
    }
  }

  /** The mean of a per-record value does not depend on record order. */
  lemma MeanPermutation<T>(a: seq<T>, b: seq<T>, f: T -> real)
    requires multiset(a) == multiset(b)
    ensures Mean(Project(a, f)) == Mean(Project(b, f))
  {
    assert |a| == |multiset(a)| == |multiset(b)| == |b|;
    SumProject(a, f);
    SumProject(b, f);
    SumOfPermutation(a, b, f);
  }

  /** The standard deviation of a per-record value does not depend on record order. */
  lemma StdDevPermutation<T>(a: seq<T>, b: seq<T>, f: T -> real, sqrt: real -> real)
    requires multiset(a) == multiset(b)
    ensures StdDev(Project(a, f), sqrt) == StdDev(Project(b, f), sqrt)
  {
    assert |a| == |multiset(a)| == |multiset(b)| == |b|;
    MeanPermutation(a, b, f);
    var m := Mean(Project(a, f));
    CoDeviationIsSquares(Project(a, f), m);
    CoDeviationIsSquares(Project(b, f), m);
    CoDeviationProject(a, f, f, m, m);
    CoDeviationProject(b, f, f, m, m);
    SumOfPermutation(a, b, r => (f(r) - m) * (f(r) - m));
  }

  /** The correlation of two per-record values does not depend on record order. */
  lemma PearsonPermutation<T>(a: seq<T>, b: seq<T>, f: T -> real, g: T -> real, sqrt: real -> real)
    requires multiset(a) == multiset(b)
    ensures Pearson(Project(a, f), Project(a, g), sqrt) == Pearson(Project(b, f), Project(b, g), sqrt)
  {
    assert |a| == |multiset(a)| == |multiset(b)| == |b|;
    MeanPermutation(a, b, f);
    MeanPermutation(a, b, g);
    var mx := Mean(Project(a, f));
    var my := Mean(Project(a, g));
    CoDeviationProject(a, f, g, mx, my);
    CoDeviationProject(b, f, g, mx, my);
    SumOfPermutation(a, b, r => (f(r) - mx) * (g(r) - my));
    CoDeviationProject(a, f, f, mx, mx);
    CoDeviationProject(b, f, f, mx, mx);
    SumOfPermutation(a, b, r => (f(r) - mx) * (f(r) - mx));
    CoDeviationProject(a, g, g, my, my);
    CoDeviationProject(b, g, g, my, my);
    SumOfPermutation(a, b, r => (g(r) - my) * (g(r) - my));
    var xa, ya, xb, yb := Project(a, f), Project(a, g), Project(b, f), Project(b, g);
    assert CoDeviation(xa, ya, mx, my) == CoDeviation(xb, yb, mx, my);
    assert CoDeviation(xa, xa, mx, mx) == CoDeviation(xb, xb, mx, mx);
    assert CoDeviation(ya, ya, my, my) == CoDeviation(yb, yb, my, my);
    assert Mean(xb) == mx && Mean(yb) == my;
  }

  /** The last step of the correlation, from its three sums. */
  function PearsonFromParts(numerator: real, denomX: real, denomY: real, sqrt: real -> real): real {
    var denominator := sqrt(denomX * denomY);
    if denominator == 0.0 then 0.0 else numerator / denominator
  }
}

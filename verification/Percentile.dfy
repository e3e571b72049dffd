/** Percentiles by linear interpolation and the numeric summary, over the reals and any monotone rounding. */
module Percentile {
  import opened Counting
  import opened Sorting

  ghost predicate Monotone(round: real -> real) {
    forall x, y :: x <= y ==> round(x) <= round(y)
  }

  // ---------------------------------------------------------------- sorting

  function Identity(x: real): real { x }

  ghost predicate Sorted(s: seq<real>) { Ordered(s, Identity) }

  function Sort(values: seq<real>): seq<real> { SortBy(values, Identity) }

  lemma SortSorts(values: seq<real>)
    ensures Sorted(Sort(values)) && multiset(Sort(values)) == multiset(values) && |Sort(values)| == |values|
  {
    SortBySorts(values, Identity);
  }

  lemma SmallestFirst(a: seq<real>, b: seq<real>)
    requires Sorted(a) && a != [] && b != [] && multiset(a) == multiset(b)
    ensures a[0] <= b[0]
  {
    assert b[0] in multiset(b);
    assert b[0] in multiset(a);
  }

  /** A multiset has one sorted arrangement. */
  lemma {:induction false} SortedIsUnique(a: seq<real>, b: seq<real>)
    requires Sorted(a) && Sorted(b) && multiset(a) == multiset(b)
    ensures a == b
  {
    assert |a| == |multiset(a)| == |multiset(b)| == |b|;
    if a != [] {
      SmallestFirst(a, b);
      SmallestFirst(b, a);
      TailContents(a);
      TailContents(b);
      SortedIsUnique(a[1..], b[1..]);
      assert a == [a[0]] + a[1..] && b == [b[0]] + b[1..];
    }
  }

  lemma TailContents(a: seq<real>)
    requires a != []
    ensures multiset(a[1..]) == multiset(a) - multiset{a[0]}
  {
    assert a == [a[0]] + a[1..];
  }

  // ---------------------------------------------------------------- percentile

  datatype QuantileError = OutOfRange

  function Scaled(gap: real, fraction: real): real { gap * fraction }

  function Interpolate(ordered: seq<real>, position: real): real
    requires |ordered| > 0 && 0.0 <= position <= (|ordered| - 1) as real
  {
    var lower := position.Floor;
    if position == lower as real then ordered[lower]
    else ordered[lower] + Scaled(ordered[lower + 1] - ordered[lower], position - lower as real)
  }

  function Position(n: nat, quantile: real): real { Scaled((n - 1) as real, quantile) }

  lemma PositionInRange(n: nat, quantile: real)
    requires n > 0 && 0.0 <= quantile <= 1.0
    ensures 0.0 <= Position(n, quantile) <= (n - 1) as real
  {
    ScaledGap((n - 1) as real, quantile);
  }

  function Percentile(values: seq<real>, quantile: real, round: real -> real): Result<real, QuantileError> {
    if values == [] then Success(0.0)
    else if !(0.0 <= quantile <= 1.0) then Failure(OutOfRange)
    else
      SortSorts(values);
      PositionInRange(|values|, quantile);
      Success(round(Interpolate(Sort(values), Position(|values|, quantile))))
  }

  lemma ScaledGap(gap: real, fraction: real)
    requires gap >= 0.0 && 0.0 <= fraction <= 1.0
    ensures 0.0 <= Scaled(gap, fraction) <= gap
  {
  }

  lemma GapGrows(gap: real, f: real, g: real)
    requires gap >= 0.0 && f <= g
    ensures Scaled(gap, f) <= Scaled(gap, g)
  {
    assert gap * (g - f) >= 0.0;
  }

  lemma Neighbours(ordered: seq<real>, i: nat)
    requires Sorted(ordered) && i + 1 < |ordered|
    ensures ordered[i] <= ordered[i + 1]
  {
    assert Identity(ordered[i]) <= Identity(ordered[i + 1]);
  }

  /** An interpolated value lies between its two neighbours. */
  lemma BetweenNeighbours(ordered: seq<real>, position: real)
    requires Sorted(ordered) && |ordered| > 0 && 0.0 <= position <= (|ordered| - 1) as real
    ensures ordered[position.Floor] <= Interpolate(ordered, position)
    ensures position.Floor + 1 < |ordered| ==> Interpolate(ordered, position) <= ordered[position.Floor + 1]
  {
    var lower := position.Floor;
    if lower + 1 < |ordered| {
      Neighbours(ordered, lower);
      ScaledGap(ordered[lower + 1] - ordered[lower], position - lower as real);
    }
    hide Scaled, Sorted;
  }

  /** The weighted mean of two samples: `1 - f` of the lower and `f` of the higher. */
  function Weighted(low: real, high: real, f: real): real { (1.0 - f) * low + f * high }

  /** Between two neighbouring samples the percentile is their weighted mean, ends included. */
  lemma InterpolatesLinearly(ordered: seq<real>, i: nat, f: real)
    requires i + 1 < |ordered| && 0.0 <= f <= 1.0
    ensures 0.0 <= i as real + f <= (|ordered| - 1) as real
    ensures Interpolate(ordered, i as real + f) == Weighted(ordered[i], ordered[i + 1], f)
  {
    var p := i as real + f;
    var low, high := ordered[i], ordered[i + 1];
    if f == 1.0 {
      assert p == (i + 1) as real;
    } else {
      assert p.Floor == i;
      assert (high - low) * f == f * high - f * low;
    }
  }

  lemma InterpolateMonotone(ordered: seq<real>, p: real, q: real)
    requires Sorted(ordered) && |ordered| > 0 && 0.0 <= p <= q <= (|ordered| - 1) as real
    ensures Interpolate(ordered, p) <= Interpolate(ordered, q)
  {
    hide Scaled;
    BetweenNeighbours(ordered, p);
    BetweenNeighbours(ordered, q);
    var i, j := p.Floor, q.Floor;
    if i != j {
      hide Interpolate;
      assert i + 1 <= j;
      assert Identity(ordered[i + 1]) <= Identity(ordered[j]);
    } else if p != i as real {
      assert q > i as real;
      Neighbours(ordered, i);
      GapGrows(ordered[i + 1] - ordered[i], p - i as real, q - i as real);
    }
  }

  /** Only the multiset of the samples matters, not their order. */
  lemma PercentileIgnoresOrder(a: seq<real>, b: seq<real>, quantile: real, round: real -> real)
    requires multiset(a) == multiset(b)
    ensures Percentile(a, quantile, round) == Percentile(b, quantile, round)
  {
    SortSorts(a);
    SortSorts(b);
    SortedIsUnique(Sort(a), Sort(b));
    assert |a| == |multiset(a)| == |multiset(b)| == |b|;
  }

  lemma PercentileMonotone(values: seq<real>, p: real, q: real, round: real -> real)
    requires Monotone(round) && 0.0 <= p <= q <= 1.0
    ensures Percentile(values, p, round).value <= Percentile(values, q, round).value
  {
    if values != [] {
      SortSorts(values);
      PositionInRange(|values|, p);
      PositionInRange(|values|, q);
      GapGrows((|values| - 1) as real, p, q);
      InterpolateMonotone(Sort(values), Position(|values|, p), Position(|values|, q));
    }
  }

  // ---------------------------------------------------------------- summary

  function Min(values: seq<real>): real
    requires values != []
  {
    if |values| == 1 || values[0] <= Min(values[1..]) then values[0] else Min(values[1..])
  }

  function Max(values: seq<real>): real
    requires values != []
  {
    if |values| == 1 || values[0] >= Max(values[1..]) then values[0] else Max(values[1..])
  }

  function Sum(values: seq<real>): real {
    if values == [] then 0.0 else values[0] + Sum(values[1..])
  }

  lemma {:induction false} MinMaxAreEnds(values: seq<real>)
    requires values != []
    ensures Min(values) in values && forall x :: x in values ==> Min(values) <= x
    ensures Max(values) in values && forall x :: x in values ==> x <= Max(values)
  {
    assert values == [values[0]] + values[1..];
    if |values| > 1 {
      MinMaxAreEnds(values[1..]);
    }
  }

  lemma SortEnds(values: seq<real>)
    requires values != []
    ensures |Sort(values)| == |values| && Sort(values)[0] == Min(values) && Sort(values)[|values| - 1] == Max(values)
  {
    SortSorts(values);
    MinMaxAreEnds(values);
    var s := Sort(values);
    assert Min(values) in multiset(values) && Max(values) in multiset(values);
    assert Min(values) in multiset(s) && Max(values) in multiset(s);
    assert s[0] in multiset(s) && s[|s| - 1] in multiset(s);
    assert s[0] in values && s[|s| - 1] in values;
    var i :| 0 <= i < |s| && s[i] == Min(values);
    var j :| 0 <= j < |s| && s[j] == Max(values);
  }

  /** The ends of the quantile range are the rounded minimum and maximum. */
  lemma PercentileEnds(values: seq<real>, round: real -> real)
    requires values != []
    ensures Percentile(values, 0.0, round) == Success(round(Min(values)))
    ensures Percentile(values, 1.0, round) == Success(round(Max(values)))
  {
    SortEnds(values);
    SortSorts(values);
    assert Position(|values|, 0.0) == 0.0;
    assert Position(|values|, 1.0) == (|values| - 1) as real;
  }

  lemma {:induction false} SumBounds(values: seq<real>, low: real, high: real)
    requires forall x :: x in values ==> low <= x <= high
    ensures low * |values| as real <= Sum(values) <= high * |values| as real
  {
    if values != [] {
      assert forall x :: x in values[1..] ==> x in values;
      SumBounds(values[1..], low, high);
      assert values[0] in values;
      assert low * |values| as real == low + low * |values[1..]| as real;
      assert high * |values| as real == high + high * |values[1..]| as real;
    }
  }

  lemma PositiveProduct(a: real, n: real)
    requires a > 0.0 && n > 0.0
    ensures a * n > 0.0
  {
  }

  lemma CancelPositive(a: real, b: real, n: real)
    requires n > 0.0 && a * n <= b * n
    ensures a <= b
  {
    if a > b {
      PositiveProduct(a - b, n);
    }
  }

  lemma QuotientBounds(sum: real, n: real, low: real, high: real)
    requires n > 0.0 && low * n <= sum <= high * n
    ensures low <= sum / n <= high
  {
    assert (sum / n) * n == sum;
    CancelPositive(low, sum / n, n);
    CancelPositive(sum / n, high, n);
  }

  datatype Summary = Summary(sampleCount: nat, min: real, mean: real, p50: real, p95: real, p99: real, max: real)

  function NumericSummary(values: seq<real>, round: real -> real): Summary {
    if values == [] then Summary(0, 0.0, 0.0, 0.0, 0.0, 0.0, 0.0)
    else Summary(|values|, round(Min(values)), round(Sum(values) / |values| as real),
                 Percentile(values, 0.50, round).value, Percentile(values, 0.95, round).value,
                 Percentile(values, 0.99, round).value, round(Max(values)))
  }

  /** Every summary is ordered, for every sample and every monotone rounding. */
  lemma SummaryIsOrdered(values: seq<real>, round: real -> real)
    requires Monotone(round)
    ensures var s := NumericSummary(values, round);
            && s.min <= s.p50 <= s.p95 <= s.p99 <= s.max
            && s.min <= s.mean <= s.max && s.sampleCount == |values|
  {
    hide Interpolate, Sort, Min, Max, Sum, Position;
    if values != [] {
      PercentileEnds(values, round);
      PercentileMonotone(values, 0.0, 0.50, round);
      PercentileMonotone(values, 0.50, 0.95, round);
      PercentileMonotone(values, 0.95, 0.99, round);
      PercentileMonotone(values, 0.99, 1.0, round);
      MinMaxAreEnds(values);
      SumBounds(values, Min(values), Max(values));
      QuotientBounds(Sum(values), |values| as real, Min(values), Max(values));
    }
  }

  // ---------------------------------------------------------------- which samples a percentile reads

  lemma ScaledQuotient(n: real, x: real)
    requires n > 0.0
    ensures Scaled(n, x / n) == x
  {
  }

  /** The quantile (i + f) / (n - 1) reads the sorted samples i and i + 1 in the proportion 1 - f to f. */
  lemma PercentileReads(values: seq<real>, i: nat, f: real, round: real -> real)
    requires i + 1 < |values| && 0.0 <= f <= 1.0
    ensures var quantile := (i as real + f) / (|values| - 1) as real; var ordered := Sort(values);
      && |ordered| == |values|
      && Percentile(values, quantile, round) == Success(round(Weighted(ordered[i], ordered[i + 1], f)))
  {
    var n, ordered := (|values| - 1) as real, Sort(values);
    SortSorts(values);
    var quantile := (i as real + f) / n;
    ScaledQuotient(n, i as real + f);
    QuotientBounds(i as real + f, n, 0.0, 1.0);
    InterpolatesLinearly(ordered, i, f);
    hide Interpolate, Sort, Percentile, Weighted, Scaled;
    PercentileAt(values, quantile, i as real + f, round);
  }

  lemma PercentileAt(values: seq<real>, quantile: real, position: real, round: real -> real)
    requires values != [] && 0.0 <= quantile <= 1.0 && Scaled((|values| - 1) as real, quantile) == position
    ensures |Sort(values)| == |values| && 0.0 <= position <= (|values| - 1) as real
    ensures Percentile(values, quantile, round) == Success(round(Interpolate(Sort(values), position)))
  {
    SortSorts(values);
    PositionInRange(|values|, quantile);
    hide Interpolate, Scaled, Sort;
  }

  /** A single sample is every percentile of itself. */
  lemma SinglePercentile(x: real, quantile: real, round: real -> real)
    requires 0.0 <= quantile <= 1.0
    ensures Percentile([x], quantile, round) == Success(round(x))
  {
    assert SortBy([x][1..], Identity) == [];
    assert Sort([x]) == [x];
    assert Position(1, quantile) == 0.0;
  }

  lemma QuantileSplit(n: nat, a: nat, b: nat)
    requires n > 0 && b > 0
    ensures (n * a) as real / (n * b) as real == a as real / b as real
  {
    var x, y, z := n as real, a as real, b as real;
    assert (n * a) as real == x * y && (n * b) as real == x * z;
    assert x * z > 0.0;
    assert (y / z) * (x * z) == x * y;
    CancelQuotient(y / z, x * z, x * y);
  }

  lemma CancelQuotient(q: real, d: real, p: real)
    requires d > 0.0 && q * d == p
    ensures p / d == q
  {
  }

  /**
   The quantiles of the summary: of 100 n + 1 samples they are the sorted samples 50 n, 95 n and 99 n, and the
   mean is the rounded sum over the count.
   */
  lemma SummaryReads(values: seq<real>, n: nat, round: real -> real)
    requires n > 0 && |values| == 100 * n + 1
    ensures var s, ordered := NumericSummary(values, round), Sort(values);
      && |ordered| == |values|
      && s.p50 == round(ordered[50 * n]) && s.p95 == round(ordered[95 * n]) && s.p99 == round(ordered[99 * n])
      && s.mean == round(Sum(values) / |values| as real)
  {
    PercentileRank(values, n, 50, round);
    PercentileRank(values, n, 95, round);
    PercentileRank(values, n, 99, round);
    hide Percentile, Sort, Sum;
  }

  lemma PercentileRank(values: seq<real>, n: nat, rank: nat, round: real -> real)
    requires n > 0 && |values| == 100 * n + 1 && rank < 100
    ensures |Sort(values)| == |values|
    ensures Percentile(values, rank as real / 100.0, round) == Success(round(Sort(values)[n * rank]))
  {
    assert n * rank < n * 100;
    PercentileReads(values, n * rank, 0.0, round);
    QuantileSplit(n, rank, 100);
    hide Percentile, Sort;
  }

  /** The sum is the sum: of one sample that sample, of two lists joined the sum of both. */
  lemma {:induction false} SumIsAdditive(a: seq<real>, b: seq<real>)
    ensures Sum(a + b) == Sum(a) + Sum(b) && forall x :: Sum([x]) == x
  {
    if a == [] {
      assert a + b == b;
    } else {
      SumIsAdditive(a[1..], b);
      assert (a + b)[1..] == a[1..] + b;
    }
    forall x ensures Sum([x]) == x {
      assert [x][1..] == [];
    }
  }
}

/** Interpolated percentiles and the aggregate latencies built from them, over exact reals. */
module Percentile {

  // ---------------------------------------------------------------- sorting

  predicate Sorted(s: seq<real>) {
    forall i, j :: 0 <= i < j < |s| ==> s[i] <= s[j]
  }

  function Insert(s: seq<real>, x: real): (r: seq<real>)
    ensures |r| == |s| + 1 && multiset(r) == multiset(s) + multiset{x}
  {
    if s == [] || x <= s[0] then [x] + s
    else
      assert s == [s[0]] + s[1..];
      [s[0]] + Insert(s[1..], x)
  }

  function Sort(s: seq<real>): (r: seq<real>)
    ensures |r| == |s| && multiset(r) == multiset(s)
  {
    if s == [] then []
    else
      assert s == [s[0]] + s[1..];
      Insert(Sort(s[1..]), s[0])
  }

  lemma {:induction false} InsertSorted(s: seq<real>, x: real)
    requires Sorted(s)
    ensures Sorted(Insert(s, x))
  {
    if s != [] && x > s[0] {
      InsertSorted(s[1..], x);
      var rest := Insert(s[1..], x);
      forall i | 0 <= i < |rest|
        ensures s[0] <= rest[i]
      {
        var y := rest[i];
        assert y in multiset(rest);
        assert y == x || y in s[1..];
      }
    }
  }

  lemma {:induction false} SortSorted(s: seq<real>)
    ensures Sorted(Sort(s))
  {
    if s != [] {
      SortSorted(s[1..]);
      InsertSorted(Sort(s[1..]), s[0]);
    }
  }

  lemma HeadIsLeast(s: seq<real>, x: real)
    requires Sorted(s) && x in multiset(s)
    ensures s != [] && s[0] <= x
  {
    assert x in s;
  }

  lemma SameHead(a: seq<real>, b: seq<real>)
    requires Sorted(a) && Sorted(b) && multiset(a) == multiset(b) && a != []
    ensures b != [] && a[0] == b[0]
  {
    assert a[0] in multiset(a);
    HeadIsLeast(b, a[0]);
    assert b[0] in multiset(b);
    HeadIsLeast(a, b[0]);
  }

  lemma TailElements(a: seq<real>)
    requires a != []
    ensures multiset(a[1..]) == multiset(a) - multiset{a[0]}
  {
    assert a == [a[0]] + a[1..];
  }

  /** A sorted list is determined by its elements. */
  lemma {:induction false} SortedUnique(a: seq<real>, b: seq<real>)
    requires Sorted(a) && Sorted(b) && multiset(a) == multiset(b)
    ensures a == b
  {
    assert |multiset(a)| == |a| && |multiset(b)| == |b|;
    if a != [] {
      SameHead(a, b);
      TailElements(a);
      TailElements(b);
      SortedUnique(a[1..], b[1..]);
      assert a == [a[0]] + a[1..] && b == [b[0]] + b[1..];
    }
  }

  predicate Below(s: seq<real>, t: seq<real>)
    requires |s| == |t|
  {
    forall i :: 0 <= i < |s| ==> s[i] <= t[i]
  }

  lemma InsertHead(s: seq<real>)
    requires s != [] && Sorted(s)
    ensures Insert(s[1..], s[0]) == s
  {
  }

  lemma {:induction false} InsertMonotone(s: seq<real>, t: seq<real>, x: real, y: real)
    requires |s| == |t| && Sorted(s) && Sorted(t) && Below(s, t) && x <= y
    ensures Below(Insert(s, x), Insert(t, y))
  {
    if s != [] {
      InsertHead(s);
      InsertHead(t);
      var x1 := if x <= s[0] then s[0] else x;
      var y1 := if y <= t[0] then t[0] else y;
      InsertMonotone(s[1..], t[1..], x1, y1);
      assert Insert(s, x) == [if x <= s[0] then x else s[0]] + Insert(s[1..], x1);
      assert Insert(t, y) == [if y <= t[0] then y else t[0]] + Insert(t[1..], y1);
    }
  }

  /** Sorting preserves pointwise order. */
  lemma {:induction false} SortMonotone(s: seq<real>, t: seq<real>)
    requires |s| == |t| && Below(s, t)
    ensures Below(Sort(s), Sort(t))
  {
    if s != [] {
      SortMonotone(s[1..], t[1..]);
      SortSorted(s[1..]);
      SortSorted(t[1..]);
      InsertMonotone(Sort(s[1..]), Sort(t[1..]), s[0], t[0]);
    }
  }

  // ---------------------------------------------------------------- rounding to three decimals

  function Floor(x: real): (n: int)
    ensures n as real <= x < (n + 1) as real
  {
    x.Floor
  }

  function Ceil(x: real): (n: int)
    ensures (n - 1) as real < x <= n as real
  {
    -Floor(-x)
  }

  /** The nearest integer, ties to the even one. */
  function RoundHalfEven(x: real): (n: int)
    ensures -0.5 <= n as real - x <= 0.5
  {
    var n := Floor(x);
    var part := x - n as real;
    if part < 0.5 || (part == 0.5 && n % 2 == 0) then n else n + 1
  }

  lemma RoundMonotone(x: real, y: real)
    requires x <= y
    ensures RoundHalfEven(x) <= RoundHalfEven(y)
  {
    FloorMonotone(x, y);
  }

  lemma FloorMonotone(x: real, y: real)
    requires x <= y
    ensures Floor(x) <= Floor(y)
  {
  }

  function Round3(x: real): real {
    RoundHalfEven(x * 1000.0) as real / 1000.0
  }

  lemma Round3Monotone(x: real, y: real)
    requires x <= y
    ensures Round3(x) <= Round3(y)
  {
    RoundMonotone(x * 1000.0, y * 1000.0);
  }

  // ---------------------------------------------------------------- interpolation

  function Mix(a: real, b: real, weight: real): real {
    a * (1.0 - weight) + b * weight
  }

  lemma Scaled(d: real, weight: real)
    requires 0.0 <= d && 0.0 <= weight <= 1.0
    ensures 0.0 <= d * weight <= d
  {
    assert 0.0 <= d * weight;
    assert 0.0 <= d * (1.0 - weight);
    assert d * (1.0 - weight) == d - d * weight;
  }

  lemma MixBetween(a: real, b: real, weight: real)
    requires a <= b && 0.0 <= weight <= 1.0
    ensures a <= Mix(a, b, weight) <= b
  {
    var d := (b - a) * weight;
    assert Mix(a, b, weight) == a + d;
    Scaled(b - a, weight);
  }

  lemma MixMonotone(a: real, b: real, v: real, w: real)
    requires a <= b && v <= w
    ensures Mix(a, b, v) <= Mix(a, b, w)
  {
    assert Mix(a, b, w) - Mix(a, b, v) == (b - a) * (w - v);
  }

  lemma MixBelow(a: real, b: real, c: real, d: real, weight: real)
    requires a <= c && b <= d && 0.0 <= weight <= 1.0
    ensures Mix(a, b, weight) <= Mix(c, d, weight)
  {
    assert a * (1.0 - weight) <= c * (1.0 - weight);
    assert b * weight <= d * weight;
  }

  /** The value at a position between two elements. */
  function At(s: seq<real>, position: real): real
    requires 0.0 <= position <= (|s| - 1) as real
  {
    var lower, upper := Floor(position), Ceil(position);
    if lower == upper then s[lower] else Mix(s[lower], s[upper], position - lower as real)
  }

  lemma AtBetween(s: seq<real>, position: real)
    requires Sorted(s) && 0.0 <= position <= (|s| - 1) as real
    ensures s[Floor(position)] <= At(s, position) <= s[Ceil(position)]
  {
    var lower, upper := Floor(position), Ceil(position);
    if lower != upper {
      MixBetween(s[lower], s[upper], position - lower as real);
    }
  }

  /** Between the elements the value grows with the position. */
  lemma AtMonotone(s: seq<real>, p: real, q: real)
    requires Sorted(s) && 0.0 <= p <= q <= (|s| - 1) as real
    ensures At(s, p) <= At(s, q)
  {
    AtBetween(s, p);
    AtBetween(s, q);
    FloorMonotone(p, q);
    if Floor(p) < Floor(q) {
      assert Ceil(p) <= Floor(q);
    } else if Floor(p) != Ceil(p) {
      MixMonotone(s[Floor(p)], s[Ceil(p)], p - Floor(p) as real, q - Floor(q) as real);
    }
  }

  lemma AtBelow(s: seq<real>, t: seq<real>, position: real)
    requires |s| == |t| && Below(s, t) && 0.0 <= position <= (|s| - 1) as real
    ensures At(s, position) <= At(t, position)
  {
    var lower, upper := Floor(position), Ceil(position);
    if lower != upper {
      MixBelow(s[lower], s[upper], t[lower], t[upper], position - lower as real);
    }
  }

  /** At an element's own position the value is the element. */
  lemma AtElement(s: seq<real>, position: real, k: nat)
    requires k < |s| && position == k as real
    ensures At(s, position) == s[k]
  {
    assert Floor(position) == k && Ceil(position) == k;
  }

  /** Halfway between two elements the value is their mean. */
  lemma AtMiddle(s: seq<real>, position: real, k: nat)
    requires k + 1 < |s| && position == k as real + 0.5
    ensures At(s, position) == (s[k] + s[k + 1]) / 2.0
  {
    assert Floor(position) == k && Ceil(position) == k + 1;
  }

  // ---------------------------------------------------------------- percentiles

  function Position(n: nat, quantile: real): (p: real)
    requires n > 0 && 0.0 <= quantile <= 1.0
    ensures 0.0 <= p <= (n - 1) as real
  {
    (n - 1) as real * quantile
  }

  lemma ProductMonotone(m: real, p: real, q: real)
    requires 0.0 <= m && p <= q
    ensures m * p <= m * q
  {
    var d := q - p;
    assert m * q == m * p + m * d;
    assert 0.0 <= m * d;
  }

  lemma PositionMonotone(n: nat, p: real, q: real)
    requires n > 0 && 0.0 <= p <= q <= 1.0
    ensures Position(n, p) <= Position(n, q)
  {
    ProductMonotone((n - 1) as real, p, q);
  }

  function Percentile(values: seq<real>, quantile: real): real
    requires 0.0 <= quantile <= 1.0
  {
    if values == [] then 0.0 else Round3(At(Sort(values), Position(|values|, quantile)))
  }

  /** The order of the values does not matter. */
  lemma PercentileIgnoresOrder(a: seq<real>, b: seq<real>, quantile: real)
    requires 0.0 <= quantile <= 1.0 && multiset(a) == multiset(b)
    ensures Percentile(a, quantile) == Percentile(b, quantile)
  {
    assert |a| == |multiset(a)| && |b| == |multiset(b)|;
    SortSorted(a);
    SortSorted(b);
    SortedUnique(Sort(a), Sort(b));
  }

  /** A larger quantile never gives a smaller percentile. */
  lemma PercentileMonotoneInQuantile(values: seq<real>, p: real, q: real)
    requires 0.0 <= p <= q <= 1.0
    ensures Percentile(values, p) <= Percentile(values, q)
  {
    if values != [] {
      SortSorted(values);
      var x, y := Position(|values|, p), Position(|values|, q);
      PositionMonotone(|values|, p, q);
      AtMonotone(Sort(values), x, y);
      Round3Monotone(At(Sort(values), x), At(Sort(values), y));
    }
  }

  /** Larger values never give a smaller percentile. */
  lemma PercentileMonotoneInData(a: seq<real>, b: seq<real>, quantile: real)
    requires |a| == |b| && Below(a, b) && 0.0 <= quantile <= 1.0
    ensures Percentile(a, quantile) <= Percentile(b, quantile)
  {
    if a != [] {
      var x := Position(|a|, quantile);
      SortMonotone(a, b);
      AtBelow(Sort(a), Sort(b), x);
      Round3Monotone(At(Sort(a), x), At(Sort(b), x));
    }
  }

  /** A percentile lies between the smallest and the largest value, each rounded. */
  lemma PercentileWithinRange(values: seq<real>, quantile: real, least: real, greatest: real)
    requires values != [] && 0.0 <= quantile <= 1.0
    requires forall v :: v in values ==> least <= v <= greatest
    ensures Round3(least) <= Percentile(values, quantile) <= Round3(greatest)
  {
    var s, x := Sort(values), Position(|values|, quantile);
    SortSorted(values);
    AtBetween(s, x);
    var lower, upper := s[Floor(x)], s[Ceil(x)];
    assert lower in multiset(s) && upper in multiset(s);
    assert lower in values && upper in values;
    Round3Monotone(least, At(s, x));
    Round3Monotone(At(s, x), greatest);
  }

  lemma OddPosition(n: nat, half: nat)
    requires n == 2 * half + 1
    ensures Position(n, 0.5) == half as real
  {
  }

  /** The median of an odd number of values is the middle one. */
  lemma OddMedian(values: seq<real>, half: nat)
    requires |values| == 2 * half + 1
    ensures Percentile(values, 0.5) == Round3(Sort(values)[half])
  {
    OddPosition(|values|, half);
    AtElement(Sort(values), Position(|values|, 0.5), half);
  }

  /** The extreme quantiles are the least and the greatest value. */
  lemma ExtremesExactly(values: seq<real>)
    requires values != []
    ensures Percentile(values, 0.0) == Round3(Sort(values)[0])
    ensures Percentile(values, 1.0) == Round3(Sort(values)[|values| - 1])
  {
    AtElement(Sort(values), Position(|values|, 0.0), 0);
    AtElement(Sort(values), Position(|values|, 1.0), |values| - 1);
  }

  /** Rounding moves a value by at most half a thousandth. */
  lemma Round3Close(x: real)
    ensures -0.0005 <= Round3(x) - x <= 0.0005
  {
    var n := RoundHalfEven(x * 1000.0);
    assert Round3(x) == n as real / 1000.0;
  }

  // ---------------------------------------------------------------- exact values

  /** Rounding gives the nearest integer, and of two equally near the even one. */
  lemma RoundExactly(x: real, n: int)
    ensures RoundHalfEven(x) == n <==>
            -0.5 < x - n as real < 0.5 || ((x - n as real == 0.5 || x - n as real == -0.5) && n % 2 == 0)
  {
    var f := Floor(x);
    assert n < f || n == f || n == f + 1 || n > f + 1;
  }

  /** `weight` of the way from `a` to `b`. */
  function Between(a: real, b: real, weight: real): real {
    a + weight * (b - a)
  }

  lemma MixIsBetween(a: real, b: real, weight: real)
    ensures Mix(a, b, weight) == Between(a, b, weight)
    ensures Between(a, b, 0.0) == a
  {
  }

  /** Between two elements the value moves in proportion to the distance. */
  lemma AtLinear(s: seq<real>, position: real, k: nat, weight: real)
    requires k + 1 < |s| && 0.0 <= weight < 1.0 && position == k as real + weight
    ensures At(s, position) == Between(s[k], s[k + 1], weight)
  {
    MixIsBetween(s[k], s[k + 1], weight);
    assert Floor(position) == k;
    if weight == 0.0 {
      assert Ceil(position) == k;
    } else {
      assert Ceil(position) == k + 1;
    }
  }

  /** The percentile is the value of the sorted list at the quantile's place, which is `weight` of the way
      from element `k` to the next. */
  lemma PercentileExactly(values: seq<real>, quantile: real, sorted: seq<real>, k: nat, weight: real)
    requires 0.0 <= quantile <= 1.0 && multiset(sorted) == multiset(values) && Sorted(sorted)
    requires k < |sorted| && 0.0 <= weight < 1.0 && Position(|sorted|, quantile) == k as real + weight
    ensures weight == 0.0 ==> Percentile(values, quantile) == Round3(sorted[k])
    ensures k + 1 < |sorted| ==>
              Percentile(values, quantile) == Round3(Between(sorted[k], sorted[k + 1], weight))
  {
    SortedIs(values, sorted);
    if weight == 0.0 {
      AtElement(sorted, k as real, k);
    }
    if k + 1 < |sorted| {
      AtLinear(sorted, k as real + weight, k, weight);
    }
  }

  lemma SortedIs(values: seq<real>, sorted: seq<real>)
    requires multiset(sorted) == multiset(values) && Sorted(sorted)
    ensures Sort(values) == sorted && |values| == |sorted|
  {
    assert |values| == |multiset(values)| && |sorted| == |multiset(sorted)|;
    SortSorted(values);
    SortedUnique(Sort(values), sorted);
  }

  /** The place of a quantile among `n` values, counted in steps from the first. */
  lemma PositionMeans(n: nat, quantile: real)
    requires n > 0 && 0.0 <= quantile <= 1.0
    ensures Position(n, quantile) == (n - 1) as real * quantile
  {
  }

  // ---------------------------------------------------------------- latencies

  function ComputeLatencyPercentiles(samples: seq<real>): (r: (real, real))
    ensures r.0 <= r.1
  {
    PercentileMonotoneInQuantile(samples, 0.5, 0.95);
    if samples == [] then (0.0, 0.0) else (Percentile(samples, 0.5), Percentile(samples, 0.95))
  }

  /** The latencies one repetition reports. */
  datatype Sample = Sample(p50Latency: real, p95Latency: real)

  function P50s(samples: seq<Sample>): (r: seq<real>)
    ensures |r| == |samples| && forall i :: 0 <= i < |samples| ==> r[i] == samples[i].p50Latency
  {
    seq(|samples|, i requires 0 <= i < |samples| => samples[i].p50Latency)
  }

  function P95s(samples: seq<Sample>): (r: seq<real>)
    ensures |r| == |samples| && forall i :: 0 <= i < |samples| ==> r[i] == samples[i].p95Latency
  {
    seq(|samples|, i requires 0 <= i < |samples| => samples[i].p95Latency)
  }

  /** The aggregate's median of medians and 95th percentile of 95th percentiles. */
  function AggregateLatencies(samples: seq<Sample>): (real, real) {
    (Percentile(P50s(samples), 0.5), Percentile(P95s(samples), 0.95))
  }

  /** If every repetition has p50 at most p95, so does the aggregate. */
  lemma AggregateKeepsOrder(samples: seq<Sample>)
    requires forall s :: s in samples ==> s.p50Latency <= s.p95Latency
    ensures AggregateLatencies(samples).0 <= AggregateLatencies(samples).1
  {
    PercentileMonotoneInData(P50s(samples), P95s(samples), 0.5);
    PercentileMonotoneInQuantile(P95s(samples), 0.5, 0.95);
  }

  lemma TwentyStepPositions(n: nat, k: nat)
    requires n == 20 * k + 1
    ensures Position(n, 0.5) == (10 * k) as real && Position(n, 0.95) == (19 * k) as real
  {
  }

  /** Of one more than twenty times `k` sorted values the latencies are number 10 `k` and number 19 `k`, counting
      from zero. */
  lemma LatencyRanks(samples: seq<real>, sorted: seq<real>, k: nat)
    requires multiset(sorted) == multiset(samples) && Sorted(sorted) && |sorted| == 20 * k + 1
    ensures ComputeLatencyPercentiles(samples) == (Round3(sorted[10 * k]), Round3(sorted[19 * k]))
  {
    TwentyStepPositions(|sorted|, k);
    SortedIs(samples, sorted);
    var middle, late := 10 * k, 19 * k;
    PercentileExactly(samples, 0.5, sorted, middle, 0.0);
    PercentileExactly(samples, 0.95, sorted, late, 0.0);
  }

  lemma ThreePositions()
    ensures Position(3, 0.5) == 1.0 && Position(3, 0.95) == 1.9
  {
  }

  lemma MiddleOfThree(values: seq<real>, sorted: seq<real>)
    requires |values| == 3 && Sorted(sorted) && multiset(sorted) == multiset(values)
    ensures |sorted| == 3 && Percentile(values, 0.5) == Round3(sorted[1])
  {
    SortedIs(values, sorted);
    ThreePositions();
    PercentileExactly(values, 0.5, sorted, 1, 0.0);
  }

  lemma LateOfThree(values: seq<real>, sorted: seq<real>)
    requires |values| == 3 && Sorted(sorted) && multiset(sorted) == multiset(values)
    ensures |sorted| == 3 && Percentile(values, 0.95) == Round3(Between(sorted[1], sorted[2], 0.9))
  {
    SortedIs(values, sorted);
    ThreePositions();
    PercentileExactly(values, 0.95, sorted, 1, 0.9);
  }

  /** With three repetitions the aggregate takes the middle of the medians, and of the 95th percentiles the value
      nine tenths of the way from the second largest to the largest. */
  lemma ThreeRepetitions(samples: seq<Sample>, p50s: seq<real>, p95s: seq<real>)
    requires |samples| == 3 && Sorted(p50s) && Sorted(p95s)
    requires multiset(p50s) == multiset(P50s(samples)) && multiset(p95s) == multiset(P95s(samples))
    ensures |p50s| == 3 && |p95s| == 3
    ensures AggregateLatencies(samples) == (Round3(p50s[1]), Round3(Between(p95s[1], p95s[2], 0.9)))
  {
    MiddleOfThree(P50s(samples), p50s);
    LateOfThree(P95s(samples), p95s);
  }
}

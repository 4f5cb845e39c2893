/** Cumulative histograms and interpolated quantiles of src/metrics/histogram.metric.ts, over reals. */
module HistogramMetric {
  import opened Arithmetic
  import opened Sequences

  /** One label set's state. */
  datatype Entry = Entry(bucketCounts: seq<int>, count: int, sum: real)

  /** A JavaScript number that may be NaN. */
  datatype Number = NaN | Num(value: real)

  predicate Ascending(buckets: seq<real>) {
    forall i, j :: 0 <= i < j < |buckets| ==> buckets[i] <= buckets[j]
  }

  /** How many observations are at most `x`. */
  function AtMost(obs: seq<real>, x: real): nat {
    if obs == [] then 0 else AtMost(obs[..|obs| - 1], x) + if obs[|obs| - 1] <= x then 1 else 0
  }

  function Below(obs: seq<real>, x: real): nat {
    if obs == [] then 0 else Below(obs[..|obs| - 1], x) + if obs[|obs| - 1] < x then 1 else 0
  }

  function Total(obs: seq<real>): real {
    if obs == [] then 0.0 else Total(obs[..|obs| - 1]) + obs[|obs| - 1]
  }

  /** The state an entry is in after `obs`. */
  ghost predicate Records(entry: Entry, buckets: seq<real>, obs: seq<real>) {
    && |entry.bucketCounts| == |buckets| && entry.count == |obs| && entry.sum == Total(obs)
    && forall i :: 0 <= i < |buckets| ==> entry.bucketCounts[i] == AtMost(obs, buckets[i])
  }

  lemma AppendObservation(obs: seq<real>, value: real, x: real)
    ensures AtMost(obs + [value], x) == AtMost(obs, x) + if value <= x then 1 else 0
    ensures Total(obs + [value]) == Total(obs) + value
  {
    assert (obs + [value])[..|obs|] == obs;
  }

  lemma {:induction false} CountsOrdered(obs: seq<real>, x: real, y: real)
    requires x <= y
    ensures 0 <= Below(obs, x) <= AtMost(obs, x) <= AtMost(obs, y) <= |obs|
    ensures x < y ==> AtMost(obs, x) <= Below(obs, y)
    decreases |obs|
  {
    if obs != [] {
      CountsOrdered(obs[..|obs| - 1], x, y);
    }
  }

  function Zeros(n: nat): (r: seq<int>)
    ensures |r| == n && forall i :: 0 <= i < n ==> r[i] == 0
  {
    if n == 0 then [] else Zeros(n - 1) + [0]
  }

  /** The loop of observe: every bucket whose bound is not below `value` counts it. */
  method CountObservation(buckets: seq<real>, before: seq<int>, ghost obs: seq<real>, value: real)
    returns (counts: seq<int>)
    requires |before| == |buckets| && forall i :: 0 <= i < |buckets| ==> before[i] == AtMost(obs, buckets[i])
    ensures |counts| == |buckets| && forall i :: 0 <= i < |buckets| ==> counts[i] == AtMost(obs + [value], buckets[i])
  {
    counts := before;
    for i := 0 to |buckets|
      invariant |counts| == |buckets|
      invariant forall j :: i <= j < |buckets| ==> counts[j] == AtMost(obs, buckets[j])
      invariant forall j :: 0 <= j < i ==> counts[j] == AtMost(obs + [value], buckets[j])
    {
      AppendObservation(obs, value, buckets[i]);
      if value <= buckets[i] {
        counts := counts[i := counts[i] + 1];
      }
    }
  }

  function Inserted(sorted: seq<real>, x: real): (r: seq<real>)
    requires Ascending(sorted)
    ensures Ascending(r) && |r| == |sorted| + 1
    ensures r[0] == if sorted == [] || x <= sorted[0] then x else sorted[0]
  {
    if sorted == [] || x <= sorted[0] then [x] + sorted else [sorted[0]] + Inserted(sorted[1..], x)
  }

  lemma {:induction false} InsertedKeepsBounds(sorted: seq<real>, x: real)
    requires Ascending(sorted)
    ensures multiset(Inserted(sorted, x)) == multiset(sorted) + multiset{x}
    decreases |sorted|
  {
    if sorted != [] && x > sorted[0] {
      InsertedKeepsBounds(sorted[1..], x);
      assert sorted == [sorted[0]] + sorted[1..];
    }
  }

  function SortedBuckets(buckets: seq<real>): (r: seq<real>)
    ensures Ascending(r) && |r| == |buckets|
  {
    if buckets == [] then [] else Inserted(SortedBuckets(buckets[1..]), buckets[0])
  }

  /** Sorting keeps exactly the configured bounds, repetitions included. */
  lemma {:induction false} SortingKeepsBounds(buckets: seq<real>)
    ensures multiset(SortedBuckets(buckets)) == multiset(buckets)
    decreases |buckets|
  {
    if buckets != [] {
      SortingKeepsBounds(buckets[1..]);
      InsertedKeepsBounds(SortedBuckets(buckets[1..]), buckets[0]);
      assert buckets == [buckets[0]] + buckets[1..];
    }
  }

  /** null where the code throws: a histogram without buckets. */
  method NewHistogram(buckets: seq<real>) returns (h: Histogram?)
    ensures h == null <==> buckets == []
    ensures h != null ==> fresh(h) && h.Valid() && h.entries == map[] && h.buckets == SortedBuckets(buckets)
  {
    if buckets == [] { return null; }
    h := new Histogram(buckets);
  }

  class Histogram {
    const buckets: seq<real>
    var entries: map<string, Entry>
    ghost var observations: map<string, seq<real>> // all values observed so far, by label key

    ghost predicate Valid()
      reads this
    {
      && Ascending(buckets) && |buckets| > 0
      && entries.Keys == observations.Keys
      && (forall k :: k in entries ==> Records(entries[k], buckets, observations[k]) && |observations[k]| > 0)
    }

    /** The configured bounds are put in order first. */
    constructor (buckets: seq<real>)
      requires |buckets| > 0
      ensures Valid() && entries == map[] && this.buckets == SortedBuckets(buckets)
    {
      this.buckets := SortedBuckets(buckets);
      entries, observations := map[], map[];
    }

    method Observe(key: string, value: real)
      requires Valid()
      modifies this
      ensures Valid()
      ensures observations ==
              old(observations)[key := (if key in old(observations) then old(observations)[key] else []) + [value]]
      ensures entries.Keys == old(entries).Keys + {key}
    {
      var entry := if key in entries then entries[key] else Entry(Zeros(|buckets|), 0, 0.0);
      ghost var obs := if key in observations then observations[key] else [];
      assert Records(entry, buckets, obs);
      var counts := CountObservation(buckets, entry.bucketCounts, obs, value);
      AppendObservation(obs, value, 0.0);
      entries := entries[key := Entry(counts, entry.count + 1, entry.sum + value)];
      observations := observations[key := obs + [value]];
    }

    /** None where the code throws: `q` outside [0, 1]. */
    method Quantile(key: string, q: real) returns (r: Option<Number>)
      requires Valid()
      ensures r.Some? <==> 0.0 <= q <= 1.0
      ensures r.Some? ==> r.value == if key in entries then QuantileOf(buckets, entries[key], q) else NaN
      ensures r.Some? && key in entries ==> QuantileIsLinear(buckets, entries[key], q, r.value)
    {
      if q < 0.0 || q > 1.0 { return None; }
      if key !in entries { return Some(NaN); }
      var entry := entries[key];
      var estimate := EstimateQuantile(buckets, entry, q);
      return Some(estimate);
    }
  }

  /** The quantile of a label set with observations. */
  method EstimateQuantile(buckets: seq<real>, entry: Entry, q: real) returns (r: Number)
    requires |entry.bucketCounts| == |buckets| && entry.count > 0
    ensures r == QuantileOf(buckets, entry, q) && QuantileIsLinear(buckets, entry, q, r)
  {
    QuantileInterpolates(buckets, entry, q);
    var target := Scale(q, entry.count);
    r := Estimate(buckets, entry.bucketCounts, target);
  }

  /** The loop of quantileOf. */
  method Estimate(buckets: seq<real>, counts: seq<int>, target: real) returns (r: Number)
    requires |counts| == |buckets|
    ensures r == EstimateAt(buckets, counts, target) && Interpolates(buckets, counts, target, r)
  {
    EstimateInterpolates(buckets, counts, target);
    var previousCount := 0;
    for i := 0 to |buckets|
      invariant previousCount == PreviousCount(counts, i)
      invariant FirstReaching(counts, target, 0) == FirstReaching(counts, target, i)
    {
      var bucketCount := counts[i];
      if bucketCount as real >= target {
        var inBucket := bucketCount - previousCount;
        var previousBucket := if i > 0 then buckets[i - 1] else 0.0;
        var rankInBucket := if inBucket == 0 then 0.0 else (target - previousCount as real) / inBucket as real;
        return Num(Interpolate(previousBucket, buckets[i], rankInBucket));
      }
      previousCount := bucketCount;
    }
    return NaN;
  }

  // ----- quantileOf -----

  function PreviousCount(counts: seq<int>, i: int): int
    requires 0 <= i <= |counts|
  {
    if i == 0 then 0 else counts[i - 1]
  }

  /** The first bucket from `i` on whose count reaches `target`; |counts| if there is none. */
  function FirstReaching(counts: seq<int>, target: real, i: nat): (k: nat)
    requires i <= |counts|
    ensures i <= k <= |counts|
    ensures k < |counts| ==> counts[k] as real >= target
    ensures forall j :: i <= j < k ==> (counts[j] as real) < target
    decreases |counts| - i
  {
    if i == |counts| || counts[i] as real >= target then i else FirstReaching(counts, target, i + 1)
  }

  function LowerBound(buckets: seq<real>, i: int): real
    requires 0 <= i <= |buckets|
  {
    if i == 0 then 0.0 else buckets[i - 1]
  }

  function RankInBucket(counts: seq<int>, i: int, target: real): real
    requires 0 <= i < |counts|
  {
    var inBucket := counts[i] - PreviousCount(counts, i);
    if inBucket == 0 then 0.0 else (target - PreviousCount(counts, i) as real) / inBucket as real
  }

  function Interpolate(lower: real, upper: real, rank: real): real {
    lower + (upper - lower) * rank
  }

  function EstimateAt(buckets: seq<real>, counts: seq<int>, target: real): Number
    requires |counts| == |buckets|
  {
    var i := FirstReaching(counts, target, 0);
    if i == |counts| then NaN
    else Num(Interpolate(LowerBound(buckets, i), buckets[i], RankInBucket(counts, i, target)))
  }

  /** `i` is the first bucket whose count reaches the target. */
  predicate Reaches(counts: seq<int>, target: real, i: nat) {
    i < |counts| && counts[i] as real >= target && forall j :: 0 <= j < i ==> (counts[j] as real) < target
  }

  /** On the line from the lower bound and its count to the upper bound and its count. */
  predicate OnTheLine(buckets: seq<real>, counts: seq<int>, target: real, i: nat, value: real)
    requires i < |counts| == |buckets|
  {
    var before := if i == 0 then 0 else counts[i - 1];
    var lower := if i == 0 then 0.0 else buckets[i - 1];
    if counts[i] == before then value == lower
    else (value - lower) * (counts[i] - before) as real == (buckets[i] - lower) * (target - before as real)
  }

  /** NaN if no count reaches the target; otherwise linear interpolation in the first bucket that does. */
  ghost predicate Interpolates(buckets: seq<real>, counts: seq<int>, target: real, r: Number)
    requires |counts| == |buckets|
  {
    && ((forall i :: 0 <= i < |counts| ==> (counts[i] as real) < target) ==> r == NaN)
    && (forall i :: Reaches(counts, target, i) ==> r.Num? && OnTheLine(buckets, counts, target, i, r.value))
  }

  lemma ProductOfQuotient(x: real, a: real, d: real)
    requires d != 0.0
    ensures x * (a / d) * d == x * a
  {
    assert a / d * d == a;
    assert x * (a / d) * d == x * (a / d * d);
  }

  lemma EstimateInterpolates(buckets: seq<real>, counts: seq<int>, target: real)
    requires |counts| == |buckets|
    ensures Interpolates(buckets, counts, target, EstimateAt(buckets, counts, target))
  {
    var r := EstimateAt(buckets, counts, target);
    forall i | Reaches(counts, target, i) ensures r.Num? && OnTheLine(buckets, counts, target, i, r.value) {
      ReachedAt(counts, target, i);
      EstimateOnTheLine(buckets, counts, target, i);
    }
  }

  lemma EstimateOnTheLine(buckets: seq<real>, counts: seq<int>, target: real, i: nat)
    requires i < |counts| == |buckets| && FirstReaching(counts, target, 0) == i
    ensures EstimateAt(buckets, counts, target).Num?
    ensures OnTheLine(buckets, counts, target, i, EstimateAt(buckets, counts, target).value)
  {
    var before, lower := PreviousCount(counts, i), LowerBound(buckets, i);
    if counts[i] != before {
      ProductOfQuotient(buckets[i] - lower, target - before as real, (counts[i] - before) as real);
    }
  }

  /** The product q * n by repeated addition, which keeps the proofs about estimates linear. */
  function Target(q: real, n: int): real {
    if n <= 0 then 0.0 else q + Target(q, n - 1)
  }

  lemma {:induction false} TargetIsProduct(q: real, n: int)
    requires n >= 0
    ensures Target(q, n) == q * n as real
    decreases n
  {
    if n > 0 {
      TargetIsProduct(q, n - 1);
      assert q * n as real == q * (n - 1) as real + q;
    }
  }

  method Scale(q: real, n: int) returns (target: real)
    requires n >= 0
    ensures target == Target(q, n)
  {
    TargetIsProduct(q, n);
    target := q * n as real;
  }

  lemma {:induction false} TargetMonotone(q: real, q': real, n: int)
    requires 0.0 <= q <= q'
    ensures 0.0 <= Target(q, n) <= Target(q', n)
    decreases n
  {
    if n > 0 { TargetMonotone(q, q', n - 1); }
  }

  lemma TargetBounds(q: real, n: int)
    requires 0.0 < q <= 1.0 && n > 0
    ensures 0.0 < Target(q, n) <= n as real
  {
    TargetMonotone(q, 1.0, n);
    TargetIsProduct(1.0, n);
    TargetMonotone(q, q, n - 1);
  }

  function QuantileOf(buckets: seq<real>, entry: Entry, q: real): Number
    requires |entry.bucketCounts| == |buckets|
  {
    if entry.count == 0 then NaN else EstimateAt(buckets, entry.bucketCounts, Target(q, entry.count))
  }

  /** NaN without observations, and otherwise interpolated at q times their number. */
  ghost predicate QuantileIsLinear(buckets: seq<real>, entry: Entry, q: real, r: Number)
    requires |entry.bucketCounts| == |buckets|
  {
    if entry.count == 0 then r == NaN
    else Interpolates(buckets, entry.bucketCounts, q * entry.count as real, r)
  }

  lemma QuantileInterpolates(buckets: seq<real>, entry: Entry, q: real)
    requires |entry.bucketCounts| == |buckets| && entry.count >= 0
    ensures QuantileIsLinear(buckets, entry, q, QuantileOf(buckets, entry, q))
  {
    TargetIsProduct(q, entry.count);
    EstimateInterpolates(buckets, entry.bucketCounts, Target(q, entry.count));
  }

  /** `x` is the value of rank `rank` (1 is the smallest) among the observations. */
  ghost predicate IsOrderStatistic(obs: seq<real>, rank: int, x: real) {
    x in obs && Below(obs, x) < rank <= AtMost(obs, x)
  }

  function Ceiling(x: real): int {
    -((-x).Floor)
  }

  /**
   * The chosen bucket holds the order statistic of rank ceil(q * count), and the
   * result is NaN exactly when that value lies beyond the last bucket.
   */
  lemma ChosenBucketHoldsRank(buckets: seq<real>, entry: Entry, obs: seq<real>, target: real, x: real)
    requires Ascending(buckets) && |buckets| > 0 && Records(entry, buckets, obs) && obs != []
    requires 0.0 < target <= |obs| as real && IsOrderStatistic(obs, Ceiling(target), x)
    ensures var i := FirstReaching(entry.bucketCounts, target, 0);
            && (EstimateAt(buckets, entry.bucketCounts, target) == NaN <==> x > buckets[|buckets| - 1])
            && (i < |buckets| ==> x <= buckets[i] && (i > 0 ==> buckets[i - 1] < x))
  {
    var i := FirstReaching(entry.bucketCounts, target, 0);
    if i < |buckets| {
      if x > buckets[i] { CountsOrdered(obs, buckets[i], x); }
      if i > 0 && x <= buckets[i - 1] { CountsOrdered(obs, x, buckets[i - 1]); }
    } else if x <= buckets[|buckets| - 1] {
      CountsOrdered(obs, x, buckets[|buckets| - 1]);
    }
  }

  lemma DivMonotone(x: real, y: real, d: real)
    requires x <= y && d > 0.0
    ensures x / d <= y / d
    ensures 0.0 <= x ==> 0.0 <= x / d
    ensures x <= d ==> x / d <= 1.0
  {
    assert (y - x) / d >= 0.0;
  }

  /** Counts are cumulative, as in every recorded entry. */
  predicate Cumulative(counts: seq<int>) {
    && (forall i :: 0 <= i < |counts| ==> counts[i] >= 0)
    && (forall i, j :: 0 <= i < j < |counts| ==> counts[i] <= counts[j])
  }

  lemma RecordedIsCumulative(buckets: seq<real>, entry: Entry, obs: seq<real>)
    requires Ascending(buckets) && Records(entry, buckets, obs)
    ensures Cumulative(entry.bucketCounts)
  {
    forall i, j | 0 <= i < j < |buckets| ensures AtMost(obs, buckets[i]) <= AtMost(obs, buckets[j]) {
      CountsOrdered(obs, buckets[i], buckets[j]);
    }
  }

  lemma RankIsFraction(counts: seq<int>, target: real)
    requires Cumulative(counts) && 0.0 <= target
    ensures var i := FirstReaching(counts, target, 0); i < |counts| ==> 0.0 <= RankInBucket(counts, i, target) <= 1.0
  {
    var i := FirstReaching(counts, target, 0);
    if i < |counts| && counts[i] != PreviousCount(counts, i) {
      var before := PreviousCount(counts, i);
      assert before as real <= target && before < counts[i];
      DivMonotone(target - before as real, target - before as real, (counts[i] - before) as real);
    }
  }

  lemma InterpolateBetween(lower: real, upper: real, r: real, r': real)
    requires lower <= upper && 0.0 <= r <= r' <= 1.0
    ensures lower <= Interpolate(lower, upper, r) <= Interpolate(lower, upper, r') <= upper
  {
    MulMonotone(upper - lower, 0.0, r);
    MulMonotone(upper - lower, r, r');
    MulMonotone(upper - lower, r', 1.0);
  }

  /** An estimate lies within its bucket, except in a first bucket with a negative bound, where none can. */
  lemma EstimateWithinBucketIff(buckets: seq<real>, counts: seq<int>, target: real)
    requires Ascending(buckets) && |counts| == |buckets| > 0 && Cumulative(counts) && 0.0 <= target
    ensures var i := FirstReaching(counts, target, 0);
            var r := EstimateAt(buckets, counts, target);
            i < |counts| ==>
              r.Num? && (LowerBound(buckets, i) <= r.value <= buckets[i] <==> i > 0 || buckets[0] >= 0.0)
  {
    var i := FirstReaching(counts, target, 0);
    if i < |counts| && (i > 0 || buckets[0] >= 0.0) {
      RankIsFraction(counts, target);
      var rank := RankInBucket(counts, i, target);
      assert LowerBound(buckets, i) <= buckets[i];
      InterpolateBetween(LowerBound(buckets, i), buckets[i], rank, rank);
    }
  }

  lemma RankMonotone(counts: seq<int>, i: int, t: real, t': real)
    requires Cumulative(counts) && 0 <= i < |counts| && t <= t'
    ensures RankInBucket(counts, i, t) <= RankInBucket(counts, i, t')
  {
    var before := PreviousCount(counts, i);
    if counts[i] != before {
      DivMonotone(t - before as real, t' - before as real, (counts[i] - before) as real);
    }
  }

  lemma FirstReachingMonotone(counts: seq<int>, t: real, t': real)
    requires t <= t'
    ensures FirstReaching(counts, t, 0) <= FirstReaching(counts, t', 0)
  {
  }

  ghost predicate MonotoneEstimates(buckets: seq<real>, counts: seq<int>)
    requires |counts| == |buckets|
  {
    forall t: real, t': real :: 0.0 <= t <= t' && EstimateAt(buckets, counts, t').Num? ==>
      && EstimateAt(buckets, counts, t).Num?
      && EstimateAt(buckets, counts, t).value <= EstimateAt(buckets, counts, t').value
  }

  /** The first bucket that has counted something; |counts| if none has. */
  function FirstCounting(counts: seq<int>, i: nat): (k: nat)
    requires i <= |counts|
    ensures i <= k <= |counts|
    ensures k < |counts| ==> counts[k] > 0
    ensures forall j :: i <= j < k ==> counts[j] <= 0
    decreases |counts| - i
  {
    if i == |counts| || counts[i] > 0 then i else FirstCounting(counts, i + 1)
  }

  /**
   * The estimate of target 0 is always 0, so it is no larger than the others exactly if
   * interpolation in the first counting bucket does not start, or end, below 0.
   */
  predicate StartsNonnegative(buckets: seq<real>, counts: seq<int>)
    requires |counts| == |buckets|
  {
    var k := FirstCounting(counts, 0);
    k == |counts| || if k == 0 then buckets[0] >= 0.0 else buckets[k - 1] >= 0.0
  }

  lemma EstimateAtZero(buckets: seq<real>, counts: seq<int>)
    requires |counts| == |buckets| > 0 && Cumulative(counts)
    ensures EstimateAt(buckets, counts, 0.0) == Num(0.0)
  {
    assert FirstReaching(counts, 0.0, 0) == 0;
    assert RankInBucket(counts, 0, 0.0) == 0.0;
  }

  /** A positive target skips the empty buckets, so its estimate is that of the counting ones. */
  lemma PositiveTarget(buckets: seq<real>, counts: seq<int>, t: real)
    requires Ascending(buckets) && |counts| == |buckets| > 0 && Cumulative(counts) && t > 0.0
    requires StartsNonnegative(buckets, counts)
    ensures var i := FirstReaching(counts, t, 0);
            && FirstCounting(counts, 0) <= i
            && (i < |counts| ==> 0.0 <= LowerBound(buckets, i) <= buckets[i])
  {
    var i, k := FirstReaching(counts, t, 0), FirstCounting(counts, 0);
    if i < |counts| {
      assert !(i < k);
    }
  }

  lemma EstimateInCountingBucket(buckets: seq<real>, counts: seq<int>, t: real)
    requires Ascending(buckets) && |counts| == |buckets| > 0 && Cumulative(counts) && t > 0.0
    requires StartsNonnegative(buckets, counts)
    ensures var i, r := FirstReaching(counts, t, 0), EstimateAt(buckets, counts, t);
            i < |counts| ==> r.Num? && 0.0 <= LowerBound(buckets, i) <= r.value <= buckets[i]
  {
    var i := FirstReaching(counts, t, 0);
    PositiveTarget(buckets, counts, t);
    if i < |counts| {
      RankIsFraction(counts, t);
      var rank := RankInBucket(counts, i, t);
      InterpolateBetween(LowerBound(buckets, i), buckets[i], rank, rank);
    }
  }

  /** Then estimates never fall as the target rises, and NaN stays NaN. */
  lemma EstimateMonotone(buckets: seq<real>, counts: seq<int>, t: real, t': real)
    requires Ascending(buckets) && |counts| == |buckets| > 0 && Cumulative(counts)
    requires 0.0 <= t <= t' && StartsNonnegative(buckets, counts)
    ensures var r, r' := EstimateAt(buckets, counts, t), EstimateAt(buckets, counts, t');
            && (r == NaN ==> r' == NaN)
            && (r'.Num? ==> r.Num? && r.value <= r'.value)
  {
    EstimateAtZero(buckets, counts);
    FirstReachingMonotone(counts, t, t');
    var i, i' := FirstReaching(counts, t, 0), FirstReaching(counts, t', 0);
    if t' > 0.0 { EstimateInCountingBucket(buckets, counts, t'); }
    if t > 0.0 && i' < |counts| {
      EstimateInCountingBucket(buckets, counts, t);
      if i == i' {
        RankIsFraction(counts, t);
        RankIsFraction(counts, t');
        RankMonotone(counts, i, t, t');
        InterpolateBetween(LowerBound(buckets, i), buckets[i], RankInBucket(counts, i, t), RankInBucket(counts, i, t'));
      } else {
        assert buckets[i] <= LowerBound(buckets, i');
      }
    }
  }

  /** How far into the first counting bucket the estimate is still negative. */
  function NegativeShare(lower: real, upper: real): (r: real)
    requires lower <= upper && lower < 0.0
    ensures 0.0 < r <= 1.0
  {
    if upper < 0.0 then 1.0
    else
      DivMonotone(-lower / 2.0, upper - lower, upper - lower);
      (-lower / 2.0) / (upper - lower)
  }

  lemma TimesQuotient(x: real, d: real)
    requires d > 0.0
    ensures d * (x / d) == x
  {
  }

  lemma NegativeShareIsNegative(lower: real, upper: real)
    requires lower <= upper && lower < 0.0
    ensures Interpolate(lower, upper, NegativeShare(lower, upper)) < 0.0
  {
    if upper >= 0.0 { TimesQuotient(-lower / 2.0, upper - lower); }
  }

  lemma ReachedAt(counts: seq<int>, t: real, k: nat)
    requires k < |counts| && counts[k] as real >= t && forall j :: 0 <= j < k ==> (counts[j] as real) < t
    ensures FirstReaching(counts, t, 0) == k
  {
  }

  lemma ShareOf(r: real, n: real) returns (t: real)
    requires 0.0 < r <= 1.0 && n > 0.0
    ensures t == r * n && 0.0 < t <= n && t / n == r
  {
    MulMonotone(n, r, 1.0);
    t := r * n;
  }

  /** The estimate of a share of the first counting bucket. */
  lemma EstimateOfShare(buckets: seq<real>, counts: seq<int>, r: real, t: real)
    requires |counts| == |buckets| && Cumulative(counts) && FirstCounting(counts, 0) < |counts|
    requires 0.0 < t <= counts[FirstCounting(counts, 0)] as real && t / counts[FirstCounting(counts, 0)] as real == r
    ensures var k := FirstCounting(counts, 0);
            EstimateAt(buckets, counts, t) == Num(Interpolate(LowerBound(buckets, k), buckets[k], r))
  {
    var k := FirstCounting(counts, 0);
    assert k > 0 ==> counts[k - 1] == 0;
    ReachedAt(counts, t, k);
    assert RankInBucket(counts, k, t) == r;
  }

  /** Where the condition fails some target up to the first positive count has a negative estimate. */
  lemma NegativeEstimate(buckets: seq<real>, counts: seq<int>) returns (t: real)
    requires Ascending(buckets) && |counts| == |buckets| > 0 && Cumulative(counts)
    requires !StartsNonnegative(buckets, counts)
    ensures 0.0 < t <= counts[FirstCounting(counts, 0)] as real
    ensures EstimateAt(buckets, counts, t).Num? && EstimateAt(buckets, counts, t).value < 0.0
  {
    var k := FirstCounting(counts, 0);
    var r := if k == 0 then 1.0 else NegativeShare(buckets[k - 1], buckets[k]);
    t := ShareOf(r, counts[k] as real);
    EstimateOfShare(buckets, counts, r, t);
    if k > 0 { NegativeShareIsNegative(buckets[k - 1], buckets[k]); }
  }

  /** Over all cumulative counts: estimates never fall exactly if they start at or above 0. */
  lemma MonotoneIff(buckets: seq<real>, counts: seq<int>)
    requires Ascending(buckets) && |counts| == |buckets| > 0 && Cumulative(counts)
    ensures MonotoneEstimates(buckets, counts) <==> StartsNonnegative(buckets, counts)
  {
    if StartsNonnegative(buckets, counts) {
      forall t: real, t': real | 0.0 <= t <= t' && EstimateAt(buckets, counts, t').Num?
        ensures EstimateAt(buckets, counts, t).Num?
                && EstimateAt(buckets, counts, t).value <= EstimateAt(buckets, counts, t').value
      {
        EstimateMonotone(buckets, counts, t, t');
      }
    } else {
      var t := NegativeEstimate(buckets, counts);
      EstimateAtZero(buckets, counts);
    }
  }

  /** Quantiles of one label set never fall as q rises, and NaN stays NaN. */
  ghost predicate MonotoneQuantiles(buckets: seq<real>, entry: Entry)
    requires |entry.bucketCounts| == |buckets|
  {
    forall q: real, q': real :: 0.0 <= q <= q' <= 1.0 && QuantileOf(buckets, entry, q').Num? ==>
      QuantileOf(buckets, entry, q).Num? && QuantileOf(buckets, entry, q).value <= QuantileOf(buckets, entry, q').value
  }

  /** Quantiles of a recorded entry never fall as q rises, and NaN stays NaN. */
  lemma QuantileMonotone(buckets: seq<real>, entry: Entry, obs: seq<real>, q: real, q': real)
    requires Ascending(buckets) && |buckets| > 0 && Records(entry, buckets, obs)
    requires StartsNonnegative(buckets, entry.bucketCounts) && 0.0 <= q <= q' <= 1.0
    ensures var r, r' := QuantileOf(buckets, entry, q), QuantileOf(buckets, entry, q');
            && (r == NaN ==> r' == NaN)
            && (r'.Num? ==> r.Num? && r.value <= r'.value)
  {
    RecordedIsCumulative(buckets, entry, obs);
    if entry.count != 0 {
      TargetMonotone(q, q', entry.count);
      EstimateMonotone(buckets, entry.bucketCounts, Target(q, entry.count), Target(q', entry.count));
    }
  }

  /** Every target up to the count is the target of some q. */
  lemma TargetReached(t: real, n: int) returns (q: real)
    requires 0.0 < t <= n as real
    ensures 0.0 < q <= 1.0 && Target(q, n) == t
  {
    q := t / n as real;
    DivMonotone(t, n as real, n as real);
    assert q * n as real == t;
    TargetIsProduct(q, n);
  }

  lemma NegativeQuantile(buckets: seq<real>, entry: Entry, obs: seq<real>) returns (q: real)
    requires Ascending(buckets) && |buckets| > 0 && Records(entry, buckets, obs) && obs != []
    requires !StartsNonnegative(buckets, entry.bucketCounts)
    ensures 0.0 < q <= 1.0 && QuantileOf(buckets, entry, q).Num? && QuantileOf(buckets, entry, q).value < 0.0
  {
    RecordedIsCumulative(buckets, entry, obs);
    var t := NegativeEstimate(buckets, entry.bucketCounts);
    var k := FirstCounting(entry.bucketCounts, 0);
    CountsOrdered(obs, buckets[k], buckets[k]);
    q := TargetReached(t, entry.count);
  }

  /** The same condition decides it for the quantiles of every recorded entry. */
  lemma QuantilesMonotoneIff(buckets: seq<real>, entry: Entry, obs: seq<real>)
    requires Ascending(buckets) && |buckets| > 0 && Records(entry, buckets, obs) && obs != []
    ensures MonotoneQuantiles(buckets, entry) <==> StartsNonnegative(buckets, entry.bucketCounts)
  {
    if StartsNonnegative(buckets, entry.bucketCounts) {
      forall q: real, q': real | 0.0 <= q <= q' <= 1.0 && QuantileOf(buckets, entry, q').Num?
        ensures QuantileOf(buckets, entry, q).Num?
                && QuantileOf(buckets, entry, q).value <= QuantileOf(buckets, entry, q').value
      {
        QuantileMonotone(buckets, entry, obs, q, q');
      }
    } else {
      var q := NegativeQuantile(buckets, entry, obs);
      RecordedIsCumulative(buckets, entry, obs);
      QuantileAtZero(buckets, entry);
    }
  }

  lemma QuantileAtZero(buckets: seq<real>, entry: Entry)
    requires |entry.bucketCounts| == |buckets| > 0 && Cumulative(entry.bucketCounts) && entry.count > 0
    ensures QuantileOf(buckets, entry, 0.0) == Num(0.0)
  {
    EstimateAtZero(buckets, entry.bucketCounts);
    TargetIsProduct(0.0, entry.count);
  }

  lemma OneObservation(x: real, bound: real)
    ensures AtMost([x], bound) == (if x <= bound then 1 else 0) && Total([x]) == x
  {
    assert [x] == [] + [x];
    AppendObservation([], x, bound);
  }

  lemma NegativeEntry()
    ensures Records(Entry([0, 1], 1, -7.0), [-10.0, -5.0], [-7.0])
  {
    OneObservation(-7.0, -10.0);
    OneObservation(-7.0, -5.0);
  }

  lemma NegativeEstimates()
    ensures EstimateAt([-10.0, -5.0], [0, 1], 1.0) == Num(-5.0)
  {
    assert FirstCounting([0, 1], 0) == 1;
    EstimateOfShare([-10.0, -5.0], [0, 1], 1.0, 1.0);
    assert Interpolate(-10.0, -5.0, 1.0) == -5.0;
  }

  /** A histogram over negative bounds only: the quantile falls from 0 to the last bound. */
  lemma NegativeBoundsFall()
    ensures var buckets, entry := [-10.0, -5.0], Entry([0, 1], 1, -7.0);
            && Records(entry, buckets, [-7.0])
            && QuantileOf(buckets, entry, 0.0) == Num(0.0) && QuantileOf(buckets, entry, 1.0) == Num(-5.0)
  {
    var buckets, entry := [-10.0, -5.0], Entry([0, 1], 1, -7.0);
    NegativeEntry();
    QuantileAtZero(buckets, entry);
    NegativeEstimates();
    TargetIsProduct(1.0, 1);
  }

  // ----- the order statistic a quantile stands for -----

  lemma {:induction false} MaximumCovers(obs: seq<real>) returns (x: real)
    requires obs != []
    ensures x in obs && AtMost(obs, x) == |obs|
    decreases |obs|
  {
    var init, last := obs[..|obs| - 1], obs[|obs| - 1];
    x := last;
    if init != [] {
      var y := MaximumCovers(init);
      x := if y <= last then last else y;
      CountsOrdered(init, y, x);
      CountsOrdered(init, x, x);
    }
  }

  /** The largest observation below `x`. */
  lemma {:induction false} NextBelow(obs: seq<real>, x: real) returns (y: real)
    requires Below(obs, x) > 0
    ensures y in obs && y < x && AtMost(obs, y) == Below(obs, x)
    decreases |obs|
  {
    var init, last := obs[..|obs| - 1], obs[|obs| - 1];
    if Below(init, x) == 0 {
      y := last;
      CountsOrdered(init, y, x);
    } else {
      y := NextBelow(init, x);
      if y < last < x {
        CountsOrdered(init, y, last);
        CountsOrdered(init, last, x);
        y := last;
      }
    }
  }

  lemma {:induction false} MemberCounts(obs: seq<real>, x: real)
    requires x in obs
    ensures Below(obs, x) < AtMost(obs, x)
    decreases |obs|
  {
    var init := obs[..|obs| - 1];
    CountsOrdered(init, x, x);
    if obs[|obs| - 1] != x { MemberCounts(init, x); }
  }

  /** Going down from an observation that covers the rank reaches the one that has it. */
  lemma {:induction false} DescendToRank(obs: seq<real>, rank: int, from: real) returns (x: real)
    requires from in obs && 0 < rank <= AtMost(obs, from)
    ensures IsOrderStatistic(obs, rank, x)
    decreases AtMost(obs, from)
  {
    if Below(obs, from) < rank {
      x := from;
    } else {
      var y := NextBelow(obs, from);
      MemberCounts(obs, from);
      x := DescendToRank(obs, rank, y);
    }
  }

  lemma RankHasValue(obs: seq<real>, target: real) returns (x: real)
    requires 0.0 < target <= |obs| as real
    ensures IsOrderStatistic(obs, Ceiling(target), x)
  {
    var top := MaximumCovers(obs);
    x := DescendToRank(obs, Ceiling(target), top);
  }

  /**
   * For 0 < q <= 1 there is an observation of rank ceil(q * count). The bucket the quantile is
   * taken from holds it, and the quantile is NaN exactly if it lies beyond the last bucket.
   */
  lemma QuantileBucketHoldsRank(buckets: seq<real>, entry: Entry, obs: seq<real>, q: real) returns (x: real)
    requires Ascending(buckets) && |buckets| > 0 && Records(entry, buckets, obs) && obs != [] && 0.0 < q <= 1.0
    ensures IsOrderStatistic(obs, Ceiling(Target(q, |obs|)), x)
    ensures var i := FirstReaching(entry.bucketCounts, Target(q, |obs|), 0);
            && (QuantileOf(buckets, entry, q) == NaN <==> x > buckets[|buckets| - 1])
            && (i < |buckets| ==> x <= buckets[i] && (i > 0 ==> buckets[i - 1] < x))
  {
    TargetBounds(q, |obs|);
    x := RankHasValue(obs, Target(q, |obs|));
    ChosenBucketHoldsRank(buckets, entry, obs, Target(q, |obs|), x);
  }
}

/**
  Mergeable accumulators (sum, max and fraction), the registry of metric
  rules that turn a row's raw series into one accumulator per sample, and the
  bucketing of sample timestamps.
 */
module Aggregates {
  import opened Resolutions
  import TimeRound

  /** The three accumulator variants. */
  datatype Kind = Sum | Max | Fraction

  /** The value held by one accumulator: a running sum, a running maximum, or a numerator/denominator pair. */
  datatype Acc =
    | SumMetric(total: real)
    | MaxMetric(peak: real)
    | FractionMetric(num: real, denom: real)
  {
    function Variant(): Kind {
      match this
      case SumMetric(_) => Sum
      case MaxMetric(_) => Max
      case FractionMetric(_, _) => Fraction
    }

    /** A fraction can only be reported when its denominator is not zero. */
    predicate Summarizable() {
      FractionMetric? ==> denom != 0.0
    }

    /** The value the accumulator reports; a fraction reports numerator over denominator. */
    function Summarize(): (r: real)
      requires Summarizable()
      ensures FractionMetric? ==> r * denom == num
      ensures SumMetric? ==> r == total
      ensures MaxMetric? ==> r == peak
    {
      match this
      case SumMetric(x) => x
      case MaxMetric(x) => x
      case FractionMetric(n, d) => n / d
    }
  }

  /** Every accumulator of `s` is of variant `k`. */
  predicate Uniform(s: seq<Acc>, k: Kind) {
    forall i | 0 <= i < |s| :: s[i].Variant() == k
  }

  /**
    The merge `a.Aggregate(b)` performs: sums add, maxima keep the larger
    value, fractions add numerators and denominators separately. Merging
    accumulators of different variants fails a type assertion in the source,
    so it is excluded.
   */
  function Merge(a: Acc, b: Acc): (r: Acc)
    requires a.Variant() == b.Variant()
    ensures r.Variant() == a.Variant()
    ensures r.SumMetric? ==> r.total == a.total + b.total
    ensures r.MaxMetric? ==> r.peak >= a.peak && r.peak >= b.peak && (r.peak == a.peak || r.peak == b.peak)
    ensures r.FractionMetric? ==> r.num == a.num + b.num && r.denom == a.denom + b.denom
  {
    match a
    case SumMetric(x) => SumMetric(x + b.total)
    case MaxMetric(x) => MaxMetric(if x >= b.peak then x else b.peak)
    case FractionMetric(n, d) => FractionMetric(n + b.num, d + b.denom)
  }

  lemma MergeCommutative(a: Acc, b: Acc)
    requires a.Variant() == b.Variant()
    ensures Merge(a, b) == Merge(b, a)
  {
  }

  lemma MergeAssociative(a: Acc, b: Acc, c: Acc)
    requires a.Variant() == b.Variant() == c.Variant()
    ensures Merge(Merge(a, b), c) == Merge(a, Merge(b, c))
  {
  }

  /** An accumulator reached through a pointer, as the source's metrics are. */
  class Metric {
    var value: Acc

    constructor (v: Acc)
      ensures value == v
    {
      value := v;
    }

    /** Merges `m` into this accumulator in place; `m` itself is left alone unless it is this one. */
    method Aggregate(m: Metric)
      requires m.value.Variant() == value.Variant()
      modifies this
      ensures value == Merge(old(value), old(m.value))
      ensures value.Variant() == old(value.Variant())
      ensures m != this ==> m.value == old(m.value)
    {
      value := Merge(value, m.value);
    }
  }

  function NewSumMetric(f: real): (a: Acc)
    ensures a.Variant() == Sum && a.Summarizable() && a.Summarize() == f
  {
    SumMetric(f)
  }

  function NewMaxMetric(f: real): (a: Acc)
    ensures a.Variant() == Max && a.Summarizable() && a.Summarize() == f
  {
    MaxMetric(f)
  }

  /** Left-to-right merge of a non-empty run of accumulators of one variant. */
  function MergeAll(s: seq<Acc>): (r: Acc)
    requires |s| > 0 && Uniform(s, s[0].Variant())
    ensures r.Variant() == s[0].Variant()
  {
    if |s| == 1 then s[0]
    else
      assert s[..|s| - 1][0] == s[0];
      Merge(MergeAll(s[..|s| - 1]), s[|s| - 1])
  }

  function SumOf(xs: seq<real>): real {
    if xs == [] then 0.0 else SumOf(xs[..|xs| - 1]) + xs[|xs| - 1]
  }

  function Totals(s: seq<Acc>): seq<real>
    requires Uniform(s, Sum)
  {
    seq(|s|, i requires 0 <= i < |s| => s[i].total)
  }

  function Numerators(s: seq<Acc>): seq<real>
    requires Uniform(s, Fraction)
  {
    seq(|s|, i requires 0 <= i < |s| => s[i].num)
  }

  function Denominators(s: seq<Acc>): seq<real>
    requires Uniform(s, Fraction)
  {
    seq(|s|, i requires 0 <= i < |s| => s[i].denom)
  }

  /** Merged sums report the sum of all contributions. */
  lemma {:induction false} MergeAllSum(s: seq<Acc>)
    requires |s| > 0 && Uniform(s, Sum)
    ensures MergeAll(s).Summarize() == SumOf(Totals(s))
  {
    if |s| > 1 {
      var init := s[..|s| - 1];
      MergeAllSum(init);
      assert Totals(s)[..|s| - 1] == Totals(init);
    } else {
      assert Totals(s)[..0] == [];
    }
  }

  /** Merged fractions hold the sum of all numerators over the sum of all denominators. */
  lemma {:induction false} MergeAllFraction(s: seq<Acc>)
    requires |s| > 0 && Uniform(s, Fraction)
    ensures MergeAll(s).num == SumOf(Numerators(s))
    ensures MergeAll(s).denom == SumOf(Denominators(s))
  {
    if |s| > 1 {
      var init := s[..|s| - 1];
      MergeAllFraction(init);
      assert Numerators(s)[..|s| - 1] == Numerators(init);
      assert Denominators(s)[..|s| - 1] == Denominators(init);
    } else {
      assert Numerators(s)[..0] == [] && Denominators(s)[..0] == [];
    }
  }

  /** Merged maxima report the largest contribution. */
  lemma {:induction false} MergeAllMax(s: seq<Acc>)
    requires |s| > 0 && Uniform(s, Max)
    ensures forall a | a in s :: MergeAll(s).peak >= a.peak
    ensures exists a | a in s :: MergeAll(s).peak == a.peak
  {
    if |s| > 1 {
      var init := s[..|s| - 1];
      MergeAllMax(init);
      assert s == init + [s[|s| - 1]];
      var w :| w in init && MergeAll(init).peak == w.peak;
      if MergeAll(s).peak == w.peak {
        assert w in s;
      } else {
        assert s[|s| - 1] in s;
      }
    } else {
      assert s[0] in s;
    }
  }

  /** A run of three accumulators merges as ((s0 + s1) + s2). */
  lemma MergeAllThree(s: seq<Acc>)
    requires |s| == 3 && Uniform(s, s[0].Variant())
    ensures MergeAll(s) == Merge(Merge(s[0], s[1]), s[2])
  {
    assert s[..2][..1] == [s[0]];
    assert MergeAll(s[..2]) == Merge(s[0], s[1]);
  }

  /** `s` with the element at position `p` taken out. */
  function Without(s: seq<Acc>, p: nat): (r: seq<Acc>)
    requires p < |s|
    ensures |r| == |s| - 1
    ensures multiset(r) + multiset{s[p]} == multiset(s)
  {
    assert s == s[..p] + [s[p]] + s[p + 1..];
    s[..p] + s[p + 1..]
  }

  lemma WithoutUniform(s: seq<Acc>, p: nat, k: Kind)
    requires p < |s| && Uniform(s, k)
    ensures Uniform(Without(s, p), k)
  {
    var r := Without(s, p);
    forall i | 0 <= i < |r| ensures r[i].Variant() == k {
      if i < p {
        assert r[i] == s[i];
      } else {
        assert r[i] == s[i + 1];
      }
    }
  }

  /** Taking out an element before the last one leaves the last one last. */
  lemma WithoutBeforeLast(s: seq<Acc>, p: nat)
    requires p < |s| - 1
    ensures Without(s, p) == Without(s[..|s| - 1], p) + [s[|s| - 1]]
  {
  }

  /** Merging a run extended by one accumulator merges that accumulator last. */
  lemma MergeAllSnoc(rest: seq<Acc>, y: Acc, k: Kind)
    requires |rest| > 0 && Uniform(rest, k) && y.Variant() == k
    ensures Uniform(rest + [y], k)
    ensures MergeAll(rest + [y]) == Merge(MergeAll(rest), y)
  {
    assert (rest + [y])[..|rest|] == rest;
  }

  /** The last two of three accumulators merged in turn can be swapped. */
  lemma MergeSwapLast(a: Acc, b: Acc, c: Acc)
    requires a.Variant() == b.Variant() == c.Variant()
    ensures Merge(Merge(a, b), c) == Merge(Merge(a, c), b)
  {
    MergeAssociative(a, b, c);
    MergeCommutative(b, c);
    MergeAssociative(a, c, b);
  }

  /** A run of two merges to the same accumulator with the first one taken out and merged last. */
  lemma MergeAllPair(s: seq<Acc>, k: Kind)
    requires |s| == 2 && Uniform(s, k)
    ensures Without(s, 0) == [s[1]]
    ensures MergeAll(s) == Merge(MergeAll(Without(s, 0)), s[0])
  {
    assert s[..1] == [s[0]];
    MergeCommutative(s[0], s[1]);
  }

  /** Any one accumulator of a run can be merged last without changing the result. */
  lemma {:induction false} MergeAllExtract(s: seq<Acc>, p: nat, k: Kind)
    requires 2 <= |s| && p < |s| && Uniform(s, k)
    ensures Uniform(Without(s, p), k)
    ensures MergeAll(s) == Merge(MergeAll(Without(s, p)), s[p])
    decreases |s|
  {
    WithoutUniform(s, p, k);
    var init, y := s[..|s| - 1], s[|s| - 1];
    if p == |s| - 1 {
      assert Without(s, p) == init;
    } else if |s| == 2 {
      MergeAllPair(s, k);
    } else {
      assert Uniform(init, k);
      MergeAllExtract(init, p, k);
      var rest := Without(init, p);
      WithoutBeforeLast(s, p);
      MergeAllSnoc(rest, y, k);
      MergeSwapLast(MergeAll(rest), s[p], y);
    }
  }

  /**
    Merging is order-independent: two runs holding the same accumulators, in
    any order, merge to the same accumulator.
   */
  lemma {:induction false} MergeAllPermutation(s: seq<Acc>, t: seq<Acc>, k: Kind)
    requires |s| > 0 && Uniform(s, k) && multiset(s) == multiset(t)
    ensures |t| > 0 && Uniform(t, k)
    ensures MergeAll(s) == MergeAll(t)
    decreases |s|
  {
    assert |t| == |multiset(t)| == |s|;
    forall i | 0 <= i < |t| ensures t[i].Variant() == k {
      assert t[i] in multiset(s);
      var j :| 0 <= j < |s| && s[j] == t[i];
    }
    var x := s[|s| - 1];
    assert x in multiset(t);
    var p :| 0 <= p < |t| && t[p] == x;
    if |s| == 1 {
      assert t == [x];
    } else {
      var init := s[..|s| - 1];
      var rest := Without(t, p);
      assert s == init + [x];
      assert multiset(init) + multiset{x} == multiset(rest) + multiset{x};
      assert multiset(init) == multiset(rest) by {
        forall a ensures multiset(init)[a] == multiset(rest)[a] {
          assert (multiset(init) + multiset{x})[a] == (multiset(rest) + multiset{x})[a];
        }
      }
      assert Uniform(init, k);
      MergeAllExtract(t, p, k);
      MergeAllPermutation(init, rest, k);
    }
  }

  /** A row's raw series, by column name, all index-aligned to the "hours" series. */
  type Values = map<string, seq<real>>

  /** A column of `values`; a missing column reads as an empty series. */
  function Column(values: Values, name: string): seq<real> {
    if name in values then values[name] else []
  }

  /** The accumulator constructor a per-sample rule wraps each value in. */
  datatype Maker = NewSum | NewMax

  function Make(maker: Maker, f: real): (a: Acc)
    ensures a.Variant() == MakerKind(maker) && a.Summarize() == f
  {
    match maker
    case NewSum => NewSumMetric(f)
    case NewMax => NewMaxMetric(f)
  }

  function MakerKind(maker: Maker): Kind {
    match maker
    case NewSum => Sum
    case NewMax => Max
  }

  /**
    A metric rule: `avg_concurrents` pairs two series into fractions; the
    other rules wrap every value of one series with a maker.
   */
  datatype Rule = AvgConcurrents | PerSample(metric: string, maker: Maker)

  function RuleKind(rule: Rule): Kind {
    match rule
    case AvgConcurrents => Fraction
    case PerSample(_, maker) => MakerKind(maker)
  }

  /** The registry of rules by metric name. */
  const MetricAggregates: map<string, Rule> := map[
    "avg_concurrents" := AvgConcurrents,
    "max_concurrents" := PerSample("max_concurrents", NewMax),
    "hours_broadcast" := PerSample("hours_broadcast", NewSum),
    "hours_watched" := PerSample("hours_watched", NewSum)
  ]

  /** The series a rule reads are at least as long as "hours"; a shorter one is indexed out of range. */
  predicate Shaped(rule: Rule, values: Values) {
    var n := |Column(values, "hours")|;
    match rule
    case AvgConcurrents =>
      |Column(values, "hours_watched")| >= n && |Column(values, "hours_broadcast")| >= n
    case PerSample(metric, _) =>
      |Column(values, metric)| >= n
  }

  /** The accumulators rule `rule` yields for a row, one per entry of "hours". */
  function RuleValues(rule: Rule, values: Values): (r: seq<Acc>)
    requires Shaped(rule, values)
    ensures |r| == |Column(values, "hours")|
    ensures Uniform(r, RuleKind(rule))
  {
    var n := |Column(values, "hours")|;
    match rule
    case AvgConcurrents =>
      var watched, broadcast := Column(values, "hours_watched"), Column(values, "hours_broadcast");
      seq(n, i requires 0 <= i < n => FractionMetric(watched[i], broadcast[i]))
    case PerSample(metric, maker) =>
      var series := Column(values, metric);
      seq(n, i requires 0 <= i < n => Make(maker, series[i]))
  }

  /** `aggrAvgConcurrents`: the i-th accumulator is the fraction hours_watched[i] / hours_broadcast[i]. */
  method AggrAvgConcurrents(values: Values) returns (out: seq<Acc>)
    requires Shaped(AvgConcurrents, values)
    ensures |out| == |Column(values, "hours")|
    ensures forall i | 0 <= i < |out| ::
      out[i] == FractionMetric(Column(values, "hours_watched")[i], Column(values, "hours_broadcast")[i])
    ensures out == RuleValues(AvgConcurrents, values)
  {
    var hours := Column(values, "hours");
    var watched, broadcast := Column(values, "hours_watched"), Column(values, "hours_broadcast");
    out := [];
    var i := 0;
    while i < |hours|
      invariant 0 <= i <= |hours|
      invariant |out| == i
      invariant forall k | 0 <= k < i :: out[k] == FractionMetric(watched[k], broadcast[k])
    {
      out := out + [FractionMetric(watched[i], broadcast[i])];
      i := i + 1;
    }
  }

  /**
    The rule `AggregateMetricFun(metric, maker)` builds, applied to `values`:
    the i-th accumulator wraps series[i]; entries past the length of "hours" are ignored.
   */
  method AggregateMetricFun(metric: string, maker: Maker, values: Values) returns (out: seq<Acc>)
    requires Shaped(PerSample(metric, maker), values)
    ensures |out| == |Column(values, "hours")|
    ensures forall i | 0 <= i < |out| :: out[i] == Make(maker, Column(values, metric)[i])
    ensures out == RuleValues(PerSample(metric, maker), values)
  {
    var hours, series := Column(values, "hours"), Column(values, metric);
    out := [];
    var i := 0;
    while i < |hours|
      invariant 0 <= i <= |hours|
      invariant |out| == i
      invariant forall k | 0 <= k < i :: out[k] == Make(maker, series[k])
    {
      out := out + [Make(maker, series[i])];
      i := i + 1;
    }
  }

  /** Conversion of a float to a 64-bit integer: the fraction is dropped, rounding toward zero. */
  function Trunc(x: real): (r: int)
    ensures 0.0 <= x ==> r as real <= x < r as real + 1.0
    ensures x < 0.0 ==> r as real - 1.0 < x <= r as real
  {
    if x >= 0.0 then x.Floor else -((-x).Floor)
  }

  /**
    The bucket key of sample timestamp `h` at a supported resolution. The
    daily key is the UTC day floor, written here in the closed form
    `DayFloorClosedForm` proves equal to it.
   */
  function Bucket(resolution: Resolution, h: real): int
    requires Supported(resolution)
  {
    if resolution == Hours then Trunc(h)
    else Trunc(h) - Trunc(h) % TimeRound.SecondsPerDay
  }

  /** The daily bucket of a sample is the UTC day floor of its timestamp. */
  lemma BucketDays(h: real)
    ensures Bucket(Days, h) == TimeRound.DayFloor(Trunc(h))
  {
    TimeRound.DayFloorClosedForm(Trunc(h));
  }

  /** The bucket keys of a row: one per "hours" entry for a supported resolution, none otherwise. */
  function TimeKeys(resolution: Resolution, values: Values): (r: seq<int>)
    ensures |r| == if Supported(resolution) then |Column(values, "hours")| else 0
  {
    var hours := Column(values, "hours");
    if Supported(resolution) then seq(|hours|, i requires 0 <= i < |hours| => Bucket(resolution, hours[i]))
    else []
  }

  /** Daily keys are the UTC day floors of the samples: midnights, each the start of the day its sample falls in. */
  lemma TimeKeysDays(values: Values)
    ensures var r := TimeKeys(Days, values);
      forall i | 0 <= i < |r| ::
        r[i] == TimeRound.DayFloor(Trunc(Column(values, "hours")[i])) &&
        r[i] % TimeRound.SecondsPerDay == 0 && r[i] <= Trunc(Column(values, "hours")[i]) < r[i] + TimeRound.SecondsPerDay
  {
    var hours := Column(values, "hours");
    forall i | 0 <= i < |hours|
      ensures TimeKeys(Days, values)[i] == TimeRound.DayFloor(Trunc(hours[i]))
    {
      BucketDays(hours[i]);
    }
  }

  /** Hourly keys are the sample timestamps with the fraction dropped: for a non-negative sample, the whole second at or below it. */
  lemma TimeKeysHours(values: Values)
    ensures var r := TimeKeys(Hours, values);
      forall i | 0 <= i < |r| ::
        r[i] == Trunc(Column(values, "hours")[i]) &&
        (0.0 <= Column(values, "hours")[i] ==> r[i] as real <= Column(values, "hours")[i] < r[i] as real + 1.0)
  {
  }

  /** `aggrTimes`: the bucket key of every sample of a row, in sample order. */
  method AggrTimes(resolution: Resolution, values: Values) returns (times: seq<int>)
    ensures resolution == Hours ==>
      |times| == |Column(values, "hours")| &&
      forall i | 0 <= i < |times| :: times[i] == Trunc(Column(values, "hours")[i])
    ensures resolution == Days ==>
      |times| == |Column(values, "hours")| &&
      forall i | 0 <= i < |times| :: times[i] == TimeRound.DayFloor(Trunc(Column(values, "hours")[i]))
    ensures !Supported(resolution) ==> times == []
    ensures times == TimeKeys(resolution, values)
  {
    var hours := Column(values, "hours");
    times := [];
    if resolution == Hours {
      var i := 0;
      while i < |hours|
        invariant 0 <= i <= |hours|
        invariant |times| == i
        invariant forall k | 0 <= k < i :: times[k] == Trunc(hours[k])
      {
        times := times + [Trunc(hours[i])];
        i := i + 1;
      }
    } else if resolution == Days {
      var i := 0;
      while i < |hours|
        invariant 0 <= i <= |hours|
        invariant |times| == i
        invariant forall k | 0 <= k < i :: times[k] == TimeRound.DayFloor(Trunc(hours[k]))
      {
        times := times + [TimeRound.DayFloor(Trunc(hours[i]))];
        i := i + 1;
      }
      TimeKeysDays(values);
    }
  }

  /** The sample row the repository's tests use. */
  const TestInputs: Values := map[
    "hours" := [0.0, 3600.0, 43200.0],
    "hours_watched" := [1.0, 2.0, 3.0],
    "hours_broadcast" := [1.0, 1.0, 0.5],
    "max_concurrents" := [3.0, 2.0, 5.0]
  ]

  /** The test row's three samples all fall on the first UTC day. */
  lemma TestInputsDayBuckets()
    ensures TimeKeys(Days, TestInputs) == [0, 0, 0]
  {
    var hours := Column(TestInputs, "hours");
    assert hours == [0.0, 3600.0, 43200.0];
    var r := TimeKeys(Days, TestInputs);
    assert |r| == 3;
    forall i | 0 <= i < 3
      ensures r[i] == 0
    {
      assert 0 <= Trunc(hours[i]) < TimeRound.SecondsPerDay;
    }
  }

  /** avg_concurrents on the test row: per-sample values 1, 2, 6, and 2.4 once merged. */
  lemma AvgConcurrentsExample()
    ensures var s := RuleValues(MetricAggregates["avg_concurrents"], TestInputs);
      |s| == 3 && s[0].Summarize() == 1.0 && s[1].Summarize() == 2.0 && s[2].Summarize() == 6.0 &&
      MergeAll(s).Summarizable() && MergeAll(s).Summarize() == 2.4
  {
    var s := RuleValues(AvgConcurrents, TestInputs);
    assert s == [FractionMetric(1.0, 1.0), FractionMetric(2.0, 1.0), FractionMetric(3.0, 0.5)];
    MergeAllThree(s);
  }

  /** max_concurrents on the test row: per-sample values 3, 2, 5, and 5 once merged. */
  lemma MaxConcurrentsExample()
    ensures var s := RuleValues(MetricAggregates["max_concurrents"], TestInputs);
      |s| == 3 && s[0].Summarize() == 3.0 && s[1].Summarize() == 2.0 && s[2].Summarize() == 5.0 &&
      MergeAll(s).Summarize() == 5.0
  {
    var s := RuleValues(PerSample("max_concurrents", NewMax), TestInputs);
    assert s == [MaxMetric(3.0), MaxMetric(2.0), MaxMetric(5.0)];
    MergeAllThree(s);
  }

  /** hours_watched and hours_broadcast on the test row: sums 6 and 2.5. */
  lemma HoursExamples()
    ensures MergeAll(RuleValues(MetricAggregates["hours_watched"], TestInputs)).Summarize() == 6.0
    ensures MergeAll(RuleValues(MetricAggregates["hours_broadcast"], TestInputs)).Summarize() == 2.5
  {
    var w := RuleValues(PerSample("hours_watched", NewSum), TestInputs);
    var b := RuleValues(PerSample("hours_broadcast", NewSum), TestInputs);
    assert w == [SumMetric(1.0), SumMetric(2.0), SumMetric(3.0)];
    assert b == [SumMetric(1.0), SumMetric(1.0), SumMetric(0.5)];
    MergeAllThree(w);
    MergeAllThree(b);
  }
}

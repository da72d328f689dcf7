/**
  The dense multi-channel statistics: the time axis, the merge of every
  channel's row-map at each axis point into one matrix row, and the
  sequential part of `GetStats`.
 */
module Stats {
  import opened Wrappers
  import opened Resolutions
  import opened Aggregates
  import opened RowMaps
  import TimeRound

  /** The distance between axis points: an hour, or one UTC calendar day. */
  function Step(res: Resolution): (s: int)
    ensures Supported(res) ==> s > 0
  {
    if res == Hours then TimeRound.SecondsPerHour
    else if res == Days then TimeRound.SecondsPerDay
    else 0
  }

  /** The points `t`, `t + step`, ... that come before `stop`. */
  function AxisFrom(t: int, stop: int, step: int): seq<int>
    requires step > 0
    decreases stop - t
  {
    if t < stop then [t] + AxisFrom(t + step, stop, step) else []
  }

  /** The axis `buildTimes` produces: from `start`, one step at a time, up to the day after `end` (excluded). */
  function TimeAxis(start: int, end: int, res: Resolution): seq<int> {
    if Supported(res) then AxisFrom(start, end + TimeRound.SecondsPerDay, Step(res)) else []
  }

  /** Point `k` is `k` steps after the first, every point comes before `stop`, and one more step would not. */
  lemma {:induction false} AxisFromShape(t: int, stop: int, step: int)
    requires step > 0
    ensures var r := AxisFrom(t, stop, step);
      (forall k | 0 <= k < |r| :: r[k] == t + k * step && r[k] < stop) &&
      t + |r| * step >= stop &&
      (t < stop ==> |r| > 0)
    decreases stop - t
  {
    if t < stop {
      var rest := AxisFrom(t + step, stop, step);
      AxisFromShape(t + step, stop, step);
      var r := [t] + rest;
      forall k | 1 <= k < |r| ensures r[k] == t + k * step {
        assert r[k] == rest[k - 1];
        assert (k - 1) * step + step == k * step;
      }
      assert (|rest| + 1) * step == |rest| * step + step;
    }
  }

  /** Strictly ascending: every point is later than every point before it. */
  predicate Ascending(axis: seq<int>) {
    forall k, l | 0 <= k < l < |axis| :: axis[k] < axis[l]
  }

  /**
    `buildTimes` for hours or days starts at `start`, moves one step at a
    time, stays before the day after `end` and stops at the first step that
    would not; any other resolution gives the empty axis.
   */
  lemma TimeAxisShape(start: int, end: int, res: Resolution)
    ensures var axis := TimeAxis(start, end, res);
      var stop := end + TimeRound.SecondsPerDay;
      (!Supported(res) ==> axis == []) &&
      (Supported(res) ==>
        (start < stop ==> |axis| > 0 && axis[0] == start) &&
        (forall k | 0 <= k < |axis| :: axis[k] == start + k * Step(res) && axis[k] < stop) &&
        (forall k | 0 <= k < |axis| - 1 :: axis[k + 1] - axis[k] == Step(res)) &&
        start + |axis| * Step(res) >= stop)
  {
    if Supported(res) {
      var axis, step := TimeAxis(start, end, res), Step(res);
      AxisFromShape(start, end + TimeRound.SecondsPerDay, step);
      forall k | 0 <= k < |axis| - 1 ensures axis[k + 1] - axis[k] == step {
        assert (k + 1) * step == k * step + step;
      }
    }
  }

  /** The axis is strictly ascending, so no time appears on it twice. */
  lemma {:induction false} TimeAxisAscending(start: int, end: int, res: Resolution)
    ensures Ascending(TimeAxis(start, end, res))
  {
    var axis := TimeAxis(start, end, res);
    TimeAxisShape(start, end, res);
    forall k, l | 0 <= k < l < |axis| ensures axis[k] < axis[l] {
      AscendingSteps(axis, Step(res), k, l);
    }
  }

  lemma {:induction false} AscendingSteps(axis: seq<int>, step: int, k: nat, l: nat)
    requires step > 0 && k < l < |axis|
    requires forall x | 0 <= x < |axis| - 1 :: axis[x + 1] - axis[x] == step
    ensures axis[k] < axis[l]
    decreases l - k
  {
    if k + 1 < l {
      AscendingSteps(axis, step, k + 1, l);
    }
  }

  /** `buildTimes`: appends `t` and advances it by an hour or a day while it comes before the day after `end`. */
  method BuildTimes(start: int, end: int, res: Resolution) returns (times: seq<int>)
    ensures times == TimeAxis(start, end, res)
  {
    var exclusiveEnd := end + TimeRound.SecondsPerDay;
    times := [];
    if res == Hours {
      var t := start;
      while t < exclusiveEnd
        invariant times + AxisFrom(t, exclusiveEnd, Step(res)) == TimeAxis(start, end, res)
        decreases exclusiveEnd - t
      {
        assert times + AxisFrom(t, exclusiveEnd, Step(res)) == (times + [t]) + AxisFrom(t + Step(res), exclusiveEnd, Step(res));
        times := times + [t];
        t := t + TimeRound.SecondsPerHour;
      }
    } else if res == Days {
      var t := start;
      while t < exclusiveEnd
        invariant times + AxisFrom(t, exclusiveEnd, Step(res)) == TimeAxis(start, end, res)
        decreases exclusiveEnd - t
      {
        assert times + AxisFrom(t, exclusiveEnd, Step(res)) == (times + [t]) + AxisFrom(t + Step(res), exclusiveEnd, Step(res));
        times := times + [t];
        t := t + TimeRound.SecondsPerDay;
      }
    }
  }

  /** A bucket vector with one accumulator per metric, slot `j` of variant `kinds[j]`. */
  predicate VecFits(v: seq<Acc>, kinds: seq<Kind>) {
    |v| == |kinds| && forall j | 0 <= j < |v| :: v[j].Variant() == kinds[j]
  }

  /** Every vector of the row-map fits `kinds`. */
  predicate Fitted(m: RowMap, kinds: seq<Kind>) {
    forall t | t in m :: VecFits(m[t], kinds)
  }

  predicate AllFitted(maps: seq<RowMap>, kinds: seq<Kind>) {
    forall k | 0 <= k < |maps| :: Fitted(maps[k], kinds)
  }

  /** Slot-by-slot merge of two vectors: `accumulator[j].Aggregate(statlist[j])` for every metric `j`. */
  function MergeVec(a: seq<Acc>, b: seq<Acc>, kinds: seq<Kind>): (r: seq<Acc>)
    requires VecFits(a, kinds) && VecFits(b, kinds)
    ensures VecFits(r, kinds)
  {
    seq(|a|, j requires 0 <= j < |a| => Merge(a[j], b[j]))
  }

  /**
    What `accumulator` holds once the row-maps `maps` have been visited for
    time `t`: nil while no map has `t`, then the first such map's vector,
    merged slot by slot with every later map's vector at `t`.
   */
  function Combined(maps: seq<RowMap>, t: int, kinds: seq<Kind>): (r: Option<seq<Acc>>)
    requires AllFitted(maps, kinds)
    ensures r.Some? ==> VecFits(r.value, kinds)
    ensures r.None? <==> forall k | 0 <= k < |maps| :: t !in maps[k]
  {
    if maps == [] then None
    else
      var init, m := maps[..|maps| - 1], maps[|maps| - 1];
      assert Fitted(m, kinds);
      assert AllFitted(init, kinds) by {
        forall k | 0 <= k < |init| ensures Fitted(init[k], kinds) {
          assert init[k] == maps[k];
        }
      }
      var prev := Combined(init, t, kinds);
      if t !in m then prev
      else if prev.None? then Some(m[t])
      else Some(MergeVec(prev.value, m[t], kinds))
  }

  /** Slot `j` of every row-map that has time `t`, in the order of the maps. */
  function Picked(maps: seq<RowMap>, t: int, kinds: seq<Kind>, j: nat): (r: seq<Acc>)
    requires AllFitted(maps, kinds) && j < |kinds|
    ensures Uniform(r, kinds[j])
  {
    if maps == [] then []
    else
      var init, m := maps[..|maps| - 1], maps[|maps| - 1];
      assert Fitted(m, kinds);
      assert AllFitted(init, kinds) by {
        forall k | 0 <= k < |init| ensures Fitted(init[k], kinds) {
          assert init[k] == maps[k];
        }
      }
      var prev := Picked(init, t, kinds, j);
      if t !in m then prev
      else
        assert VecFits(m[t], kinds);
        UniformConcat(prev, [m[t][j]], kinds[j])
  }

  /**
    No accumulator is found exactly when no row-map has `t`; otherwise slot
    `j` of the accumulator is the merge, in map order, of slot `j` of every
    row-map that has `t`.
   */
  lemma {:induction false} CombinedSlots(maps: seq<RowMap>, t: int, kinds: seq<Kind>, j: nat)
    requires AllFitted(maps, kinds) && j < |kinds|
    ensures Combined(maps, t, kinds).None? <==> forall k | 0 <= k < |maps| :: t !in maps[k]
    ensures Combined(maps, t, kinds).None? <==> Picked(maps, t, kinds, j) == []
    ensures Combined(maps, t, kinds).Some? ==>
      Combined(maps, t, kinds).value[j] == MergeAll(Picked(maps, t, kinds, j))
  {
    if maps != [] {
      var init, m := maps[..|maps| - 1], maps[|maps| - 1];
      assert forall k | 0 <= k < |init| :: init[k] == maps[k];
      CombinedSlots(init, t, kinds, j);
      var p := Picked(init, t, kinds, j);
      if t in m && p != [] {
        assert VecFits(m[t], kinds);
        assert (p + [m[t][j]])[..|p|] == p;
      }
    }
  }

  /** Every slot of the accumulator for `t`, if there is one, can be reported. */
  predicate RowReportable(maps: seq<RowMap>, t: int, kinds: seq<Kind>)
    requires AllFitted(maps, kinds)
  {
    var c := Combined(maps, t, kinds);
    c.Some? ==> forall j | 0 <= j < |kinds| :: c.value[j].Summarizable()
  }

  predicate Reportable(maps: seq<RowMap>, axis: seq<int>, kinds: seq<Kind>)
    requires AllFitted(maps, kinds)
  {
    forall i | 0 <= i < |axis| :: RowReportable(maps, axis[i], kinds)
  }

  /** A matrix row: the time, then every slot's report, or zeros when there is no accumulator. */
  function RowOf(t: int, accumulator: Option<seq<Acc>>, kinds: seq<Kind>): (r: seq<real>)
    requires accumulator.Some? ==> VecFits(accumulator.value, kinds)
    requires accumulator.Some? ==> forall j | 0 <= j < |kinds| :: accumulator.value[j].Summarizable()
    ensures |r| == |kinds| + 1
  {
    seq(|kinds| + 1, c requires 0 <= c <= |kinds| =>
      if c == 0 then t as real
      else if accumulator.None? then 0.0
      else accumulator.value[c - 1].Summarize())
  }

  /** Row `i` of the matrix `denseMultichannelStats` returns, for the axis time `t`. */
  function DenseRow(maps: seq<RowMap>, t: int, kinds: seq<Kind>): (r: seq<real>)
    requires AllFitted(maps, kinds) && RowReportable(maps, t, kinds)
    ensures |r| == |kinds| + 1
  {
    RowOf(t, Combined(maps, t, kinds), kinds)
  }

  /**
    Column 0 is the time; when no row-map has the time, every metric column
    is zero; otherwise metric column `j + 1` reports the merge of slot `j`
    of every row-map that has the time.
   */
  lemma DenseRowCells(maps: seq<RowMap>, t: int, kinds: seq<Kind>, j: nat)
    requires AllFitted(maps, kinds) && RowReportable(maps, t, kinds) && j < |kinds|
    ensures DenseRow(maps, t, kinds)[0] == t as real
    ensures (forall k | 0 <= k < |maps| :: t !in maps[k]) ==> DenseRow(maps, t, kinds)[j + 1] == 0.0
    ensures (exists k | 0 <= k < |maps| :: t in maps[k]) ==>
      |Picked(maps, t, kinds, j)| > 0 &&
      MergeAll(Picked(maps, t, kinds, j)).Summarizable() &&
      DenseRow(maps, t, kinds)[j + 1] == MergeAll(Picked(maps, t, kinds, j)).Summarize()
  {
    CombinedSlots(maps, t, kinds, j);
  }

  /** A time held by exactly one row-map reports that map's own accumulators. */
  lemma DenseRowSingleSource(maps: seq<RowMap>, t: int, kinds: seq<Kind>, j: nat, k: nat)
    requires AllFitted(maps, kinds) && RowReportable(maps, t, kinds) && j < |kinds|
    requires k < |maps| && t in maps[k]
    requires forall x | 0 <= x < |maps| && x != k :: t !in maps[x]
    ensures VecFits(maps[k][t], kinds) && maps[k][t][j].Summarizable()
    ensures DenseRow(maps, t, kinds)[j + 1] == maps[k][t][j].Summarize()
  {
    assert Fitted(maps[k], kinds);
    PickedSingle(maps, t, kinds, j, k);
    DenseRowCells(maps, t, kinds, j);
  }

  lemma {:induction false} PickedSingle(maps: seq<RowMap>, t: int, kinds: seq<Kind>, j: nat, k: nat)
    requires AllFitted(maps, kinds) && j < |kinds|
    requires k < |maps| && t in maps[k]
    requires forall x | 0 <= x < |maps| && x != k :: t !in maps[x]
    ensures Fitted(maps[k], kinds) && Picked(maps, t, kinds, j) == [maps[k][t][j]]
  {
    var init := maps[..|maps| - 1];
    assert forall x | 0 <= x < |init| :: init[x] == maps[x];
    if k < |init| {
      PickedSingle(init, t, kinds, j, k);
    } else {
      PickedNone(init, t, kinds, j);
    }
  }

  lemma PickedNone(maps: seq<RowMap>, t: int, kinds: seq<Kind>, j: nat)
    requires AllFitted(maps, kinds) && j < |kinds|
    requires forall x | 0 <= x < |maps| :: t !in maps[x]
    ensures Picked(maps, t, kinds, j) == []
  {
    CombinedSlots(maps, t, kinds, j);
  }

  /** Picking from two runs of row-maps picks from the first run, then from the second. */
  lemma {:induction false} PickedConcat(a: seq<RowMap>, b: seq<RowMap>, t: int, kinds: seq<Kind>, j: nat)
    requires AllFitted(a, kinds) && AllFitted(b, kinds) && j < |kinds|
    ensures AllFitted(a + b, kinds)
    ensures Picked(a + b, t, kinds, j) == Picked(a, t, kinds, j) + Picked(b, t, kinds, j)
    decreases |b|
  {
    assert forall k | 0 <= k < |a + b| :: (a + b)[k] == if k < |a| then a[k] else b[k - |a|];
    if b == [] {
      assert a + b == a;
    } else {
      var init := b[..|b| - 1];
      assert forall k | 0 <= k < |init| :: init[k] == b[k];
      PickedConcat(a, init, t, kinds, j);
      assert (a + b)[..|a + b| - 1] == a + init;
    }
  }

  /** Row-maps rearranged still fit. */
  lemma PermutedFitted(maps: seq<RowMap>, other: seq<RowMap>, kinds: seq<Kind>)
    requires AllFitted(maps, kinds) && multiset(maps) == multiset(other)
    ensures AllFitted(other, kinds)
  {
    forall k | 0 <= k < |other| ensures Fitted(other[k], kinds) {
      assert other[k] in multiset(maps);
      var x :| 0 <= x < |maps| && maps[x] == other[k];
    }
  }

  /** The run before position `p`, the map at `p` and the run after it all fit. */
  lemma SlicesFitted(maps: seq<RowMap>, p: nat, kinds: seq<Kind>)
    requires AllFitted(maps, kinds) && p < |maps|
    ensures AllFitted(maps[..p], kinds) && AllFitted([maps[p]], kinds) && AllFitted(maps[p + 1..], kinds)
  {
    assert forall k | 0 <= k < p :: maps[..p][k] == maps[k];
    var after := maps[p + 1..];
    assert forall k | 0 <= k < |after| :: after[k] == maps[p + 1 + k];
  }

  /** Taking the same element out of two equal multisets leaves equal multisets. */
  lemma MultisetCancel<T>(a: multiset<T>, b: multiset<T>, x: T)
    requires a + multiset{x} == b + multiset{x}
    ensures a == b
  {
    forall y ensures a[y] == b[y] {
      assert (a + multiset{x})[y] == (b + multiset{x})[y];
    }
  }

  /** Taking the map at position `p` out of a run takes its picks out of the run's picks. */
  lemma PickedRemove(maps: seq<RowMap>, p: nat, t: int, kinds: seq<Kind>, j: nat)
    requires AllFitted(maps, kinds) && p < |maps| && j < |kinds|
    ensures var rest := maps[..p] + maps[p + 1..];
      AllFitted(rest, kinds) && AllFitted([maps[p]], kinds) &&
      multiset(rest) + multiset{maps[p]} == multiset(maps) &&
      multiset(Picked(maps, t, kinds, j)) == multiset(Picked(rest, t, kinds, j)) + multiset(Picked([maps[p]], t, kinds, j))
  {
    var before, m, after := maps[..p], maps[p], maps[p + 1..];
    assert maps == before + [m] + after;
    SlicesFitted(maps, p, kinds);
    PickedConcat(before, after, t, kinds, j);
    PickedConcat(before, [m], t, kinds, j);
    PickedConcat(before + [m], after, t, kinds, j);
    var pb, pm, pa := Picked(before, t, kinds, j), Picked([m], t, kinds, j), Picked(after, t, kinds, j);
    assert multiset(pb + pm + pa) == multiset(pb + pa) + multiset(pm);
  }

  /** The same row-maps in any order pick the same accumulators, up to order. */
  lemma {:induction false} PickedPermutation(maps: seq<RowMap>, other: seq<RowMap>, t: int, kinds: seq<Kind>, j: nat)
    requires AllFitted(maps, kinds) && j < |kinds| && multiset(maps) == multiset(other)
    ensures AllFitted(other, kinds)
    ensures multiset(Picked(maps, t, kinds, j)) == multiset(Picked(other, t, kinds, j))
    decreases |maps|
  {
    PermutedFitted(maps, other, kinds);
    if maps == [] {
      assert |other| == |multiset(other)| == 0;
    } else {
      var last := |maps| - 1;
      var init, m := maps[..last], maps[last];
      PickedRemove(maps, last, t, kinds, j);
      assert maps[..last] + maps[last + 1..] == init;
      assert m in multiset(other);
      var p :| 0 <= p < |other| && other[p] == m;
      PickedRemove(other, p, t, kinds, j);
      var rest := other[..p] + other[p + 1..];
      MultisetCancel(multiset(init), multiset(rest), m);
      PickedPermutation(init, rest, t, kinds, j);
    }
  }

  /**
    The matrix row does not depend on the order of the row-maps: the same
    maps in any order (as `GetStats` receives them) give the same row.
   */
  lemma DenseRowOrderIndependent(maps: seq<RowMap>, other: seq<RowMap>, t: int, kinds: seq<Kind>)
    requires AllFitted(maps, kinds) && RowReportable(maps, t, kinds) && multiset(maps) == multiset(other)
    ensures AllFitted(other, kinds) && RowReportable(other, t, kinds)
    ensures DenseRow(other, t, kinds) == DenseRow(maps, t, kinds)
  {
    PermutedFitted(maps, other, kinds);
    var c, c' := Combined(maps, t, kinds), Combined(other, t, kinds);
    if exists k | 0 <= k < |maps| :: t in maps[k] {
      var k :| 0 <= k < |maps| && t in maps[k];
      assert maps[k] in multiset(other);
    }
    if exists k | 0 <= k < |other| :: t in other[k] {
      var k :| 0 <= k < |other| && t in other[k];
      assert other[k] in multiset(maps);
    }
    forall j | 0 <= j < |kinds| && c.Some?
      ensures c.value[j] == c'.value[j]
    {
      PickedPermutation(maps, other, t, kinds, j);
      CombinedSlots(maps, t, kinds, j);
      CombinedSlots(other, t, kinds, j);
      var p := Picked(maps, t, kinds, j);
      MergeAllPermutation(p, Picked(other, t, kinds, j), kinds[j]);
    }
  }

  /** The index of the first row-map that has time `t`, or the number of maps when none has it. */
  function FirstHolder(maps: seq<RowMap>, t: int): (f: nat)
    ensures f <= |maps|
    ensures forall k | 0 <= k < f :: t !in maps[k]
    ensures f < |maps| ==> t in maps[f]
  {
    if maps == [] || t in maps[0] then 0
    else
      var f := 1 + FirstHolder(maps[1..], t);
      assert forall k | 1 <= k < f :: maps[k] == maps[1..][k - 1];
      f
  }

  /**
    The row-maps after `denseMultichannelStats` visits time `t`: the
    accumulator aliases the vector of the first map that has `t`, so that
    map's vector at `t` becomes the merged vector; every other map, and
    every other time, is left as it was.
   */
  function MergedAt(maps: seq<RowMap>, t: int, kinds: seq<Kind>): (r: seq<RowMap>)
    requires AllFitted(maps, kinds)
    ensures |r| == |maps| && AllFitted(r, kinds)
  {
    var f := FirstHolder(maps, t);
    if f == |maps| then maps
    else
      var r := maps[f := maps[f][t := Combined(maps, t, kinds).value]];
      assert forall k | 0 <= k < |r| && k != f :: r[k] == maps[k];
      assert Fitted(maps[f], kinds);
      r
  }

  /** The row-maps after `denseMultichannelStats` visits the times `ts` in order. */
  function AfterDense(maps: seq<RowMap>, ts: seq<int>, kinds: seq<Kind>): (r: seq<RowMap>)
    requires AllFitted(maps, kinds)
    ensures |r| == |maps| && AllFitted(r, kinds)
  {
    if ts == [] then maps
    else MergedAt(AfterDense(maps, ts[..|ts| - 1], kinds), ts[|ts| - 1], kinds)
  }

  /** Two runs of row-maps that agree at time `t`. */
  predicate SameAt(a: seq<RowMap>, b: seq<RowMap>, t: int) {
    |a| == |b| &&
    forall k | 0 <= k < |a| :: (t in a[k] <==> t in b[k]) && (t in a[k] ==> a[k][t] == b[k][t])
  }

  /** Runs of row-maps that agree at `t` combine to the same accumulator and have the same first holder. */
  lemma {:induction false} SameAtCombined(a: seq<RowMap>, b: seq<RowMap>, t: int, kinds: seq<Kind>)
    requires AllFitted(a, kinds) && AllFitted(b, kinds) && SameAt(a, b, t)
    ensures Combined(a, t, kinds) == Combined(b, t, kinds)
    ensures FirstHolder(a, t) == FirstHolder(b, t)
  {
    if a != [] {
      var ia, ib := a[..|a| - 1], b[..|b| - 1];
      assert forall k | 0 <= k < |ia| :: ia[k] == a[k] && ib[k] == b[k];
      SameAtCombined(ia, ib, t, kinds);
      FirstHolderPrefix(a, t);
      FirstHolderPrefix(b, t);
    }
  }

  /** The first holder in a run is the first holder in the run without its last map, unless only the last map has `t`. */
  lemma FirstHolderPrefix(maps: seq<RowMap>, t: int)
    requires maps != []
    ensures var init := maps[..|maps| - 1];
      FirstHolder(maps, t) == if FirstHolder(init, t) < |init| then FirstHolder(init, t) else if t in maps[|maps| - 1] then |init| else |maps|
  {
    var init := maps[..|maps| - 1];
    var f, g := FirstHolder(maps, t), FirstHolder(init, t);
    assert forall k | 0 <= k < |init| :: init[k] == maps[k];
    if g < |init| {
      assert t in maps[g];
    }
  }

  /** Visiting time `t` changes no map at any other time, nor any map's set of times. */
  lemma MergedAtElsewhere(maps: seq<RowMap>, t: int, u: int, kinds: seq<Kind>)
    requires AllFitted(maps, kinds) && u != t
    ensures SameAt(MergedAt(maps, t, kinds), maps, u)
    ensures forall k | 0 <= k < |maps| :: MergedAt(maps, t, kinds)[k].Keys == maps[k].Keys
  {
  }

  /**
    After the distinct times `ts` are visited, every map keeps its set of
    times; at a visited time the first map that has it holds the merge of
    all maps' vectors there; everything else is as it was.
   */
  lemma {:induction false} AfterDenseEffect(maps: seq<RowMap>, ts: seq<int>, kinds: seq<Kind>, k: nat, u: int)
    requires AllFitted(maps, kinds) && Ascending(ts) && k < |maps|
    ensures AfterDense(maps, ts, kinds)[k].Keys == maps[k].Keys
    ensures u in maps[k] ==>
      AfterDense(maps, ts, kinds)[k][u] ==
        if u in ts && k == FirstHolder(maps, u) then Combined(maps, u, kinds).value else maps[k][u]
  {
    if ts != [] {
      var init, t := ts[..|ts| - 1], ts[|ts| - 1];
      assert Ascending(init);
      var prev := AfterDense(maps, init, kinds);
      AfterDenseEffect(maps, init, kinds, k, u);
      MergedAtElsewhere(prev, t, if u == t then t + 1 else u, kinds);
      if u == t {
        assert u !in init;
        forall x | 0 <= x < |maps| ensures (t in prev[x] <==> t in maps[x]) && (t in prev[x] ==> prev[x][t] == maps[x][t]) {
          AfterDenseEffect(maps, init, kinds, x, t);
        }
        SameAtCombined(prev, maps, t, kinds);
      } else {
        assert u in ts <==> u in init;
        MergedAtElsewhere(prev, t, u, kinds);
      }
    }
  }

  /** Visiting the not yet visited time `t` sees the row-maps as they were before any visit. */
  lemma AfterDenseUnvisited(maps: seq<RowMap>, ts: seq<int>, t: int, kinds: seq<Kind>)
    requires AllFitted(maps, kinds) && Ascending(ts) && t !in ts
    ensures Combined(AfterDense(maps, ts, kinds), t, kinds) == Combined(maps, t, kinds)
    ensures FirstHolder(AfterDense(maps, ts, kinds), t) == FirstHolder(maps, t)
  {
    var after := AfterDense(maps, ts, kinds);
    forall x | 0 <= x < |maps| ensures (t in after[x] <==> t in maps[x]) && (t in after[x] ==> after[x][t] == maps[x][t]) {
      AfterDenseEffect(maps, ts, kinds, x, t);
    }
    SameAtCombined(after, maps, t, kinds);
  }

  /** Merges `statlist` into `accumulator` slot by slot, in metric order. */
  method MergeInto(accumulator: seq<Acc>, statlist: seq<Acc>, ghost kinds: seq<Kind>) returns (merged: seq<Acc>)
    requires VecFits(accumulator, kinds) && VecFits(statlist, kinds)
    ensures merged == MergeVec(accumulator, statlist, kinds)
  {
    merged := accumulator;
    var j := 0;
    while j < |accumulator|
      invariant 0 <= j <= |accumulator| && |merged| == |accumulator|
      invariant forall x | 0 <= x < |accumulator| :: merged[x] == if x < j then Merge(accumulator[x], statlist[x]) else accumulator[x]
    {
      merged := merged[j := Merge(merged[j], statlist[j])];
      j := j + 1;
    }
  }

  /** A second update of the same key replaces the first. */
  lemma UpdateTwice(m: RowMap, t: int, a: seq<Acc>, b: seq<Acc>)
    ensures m[t := a][t := b] == m[t := b]
  {
  }

  lemma CombinedWhole(maps: seq<RowMap>, t: int, kinds: seq<Kind>)
    requires AllFitted(maps, kinds)
    ensures AllFitted(maps[..|maps|], kinds) && Combined(maps[..|maps|], t, kinds) == Combined(maps, t, kinds)
  {
    assert maps[..|maps|] == maps;
  }

  /** Visiting one more row-map for time `t` leaves the accumulator as `Combined` says. */
  lemma CombinedStep(maps: seq<RowMap>, k: nat, t: int, kinds: seq<Kind>)
    requires AllFitted(maps, kinds) && k < |maps|
    ensures AllFitted(maps[..k], kinds) && AllFitted(maps[..k + 1], kinds) && Fitted(maps[k], kinds)
    ensures var prev := Combined(maps[..k], t, kinds);
      Combined(maps[..k + 1], t, kinds) ==
        if t !in maps[k] then prev
        else if prev.None? then Some(maps[k][t])
        else Some(MergeVec(prev.value, maps[k][t], kinds))
    ensures Combined(maps[..k], t, kinds).None? <==> k <= FirstHolder(maps, t)
  {
    assert forall x | 0 <= x < k + 1 :: maps[..k + 1][x] == maps[x];
    assert maps[..k + 1][..k] == maps[..k];
    var f := FirstHolder(maps, t);
    if f < k {
      assert maps[..k][f] == maps[f];
    }
  }

  /**
    The inner loop of `denseMultichannelStats` for time `t`: the first map
    that has `t` lends its vector as the accumulator, and every later map's
    vector at `t` is merged into it in place.
   */
  method CombineAt(statRowMaps: array<RowMap>, t: int, ghost kinds: seq<Kind>) returns (accumulator: Option<seq<Acc>>)
    requires AllFitted(statRowMaps[..], kinds)
    modifies statRowMaps
    ensures accumulator == Combined(old(statRowMaps[..]), t, kinds)
    ensures statRowMaps[..] == MergedAt(old(statRowMaps[..]), t, kinds)
  {
    ghost var orig := statRowMaps[..];
    ghost var f := FirstHolder(orig, t);
    accumulator := None;
    var first := 0;
    var k := 0;
    while k < statRowMaps.Length
      invariant 0 <= k <= statRowMaps.Length && AllFitted(orig[..k], kinds)
      invariant accumulator == Combined(orig[..k], t, kinds)
      invariant accumulator.None? <==> k <= f
      invariant accumulator.Some? ==> first == f
      invariant statRowMaps[..] == if accumulator.Some? then orig[f := orig[f][t := accumulator.value]] else orig
    {
      CombinedStep(orig, k, t, kinds);
      var m := statRowMaps[k];
      if t in m {
        if accumulator.None? {
          accumulator := Some(m[t]);
          first := k;
          assert orig[f][t := m[t]] == orig[f];
          assert orig[f := orig[f]] == orig;
        } else {
          var merged := MergeInto(accumulator.value, m[t], kinds);
          UpdateTwice(orig[f], t, accumulator.value, merged);
          accumulator := Some(merged);
          statRowMaps[first] := statRowMaps[first][t := merged];
        }
      }
      k := k + 1;
    }
    CombinedWhole(orig, t, kinds);
    assert statRowMaps[..] == MergedAt(orig, t, kinds);
  }

  /** Writes matrix row `i`: the time in column 0 and, when there is an accumulator, each metric's report. */
  method FillRow(stats: array2<real>, i: nat, t: int, accumulator: Option<seq<Acc>>, ghost kinds: seq<Kind>)
    requires i < stats.Length0 && stats.Length1 == |kinds| + 1
    requires accumulator.Some? ==> VecFits(accumulator.value, kinds)
    requires accumulator.Some? ==> forall j | 0 <= j < |kinds| :: accumulator.value[j].Summarizable()
    requires forall c | 1 <= c < stats.Length1 :: stats[i, c] == 0.0
    modifies stats
    ensures forall c | 0 <= c < stats.Length1 :: stats[i, c] == RowOf(t, accumulator, kinds)[c]
    ensures forall x, c | 0 <= x < stats.Length0 && x != i && 0 <= c < stats.Length1 :: stats[x, c] == old(stats[x, c])
  {
    stats[i, 0] := t as real;
    if accumulator.None? {
      return;
    }
    var j := 0;
    while j < stats.Length1 - 1
      invariant 0 <= j <= |kinds|
      invariant stats[i, 0] == t as real
      invariant forall c | 1 <= c < stats.Length1 :: stats[i, c] == if c <= j then accumulator.value[c - 1].Summarize() else 0.0
      invariant forall x, c | 0 <= x < stats.Length0 && x != i && 0 <= c < stats.Length1 :: stats[x, c] == old(stats[x, c])
    {
      stats[i, j + 1] := accumulator.value[j].Summarize();
      j := j + 1;
    }
  }

  /**
    One visit of the axis, in the loop of `denseMultichannelStats`: at the
    `i`-th time the maps so far combine as the original ones do, the visit
    adds one merge to the run, and the row it writes is the `i`-th row of the
    matrix.
   */
  lemma DenseStep(maps: seq<RowMap>, axis: seq<int>, i: nat, kinds: seq<Kind>)
    requires AllFitted(maps, kinds) && Reportable(maps, axis, kinds)
    requires Ascending(axis) && i < |axis|
    ensures var before := AfterDense(maps, axis[..i], kinds);
      Combined(before, axis[i], kinds) == Combined(maps, axis[i], kinds) &&
      AfterDense(maps, axis[..i + 1], kinds) == MergedAt(before, axis[i], kinds)
    ensures RowReportable(maps, axis[i], kinds)
    ensures DenseRow(maps, axis[i], kinds) == RowOf(axis[i], Combined(maps, axis[i], kinds), kinds)
  {
    AxisPrefix(axis, i);
    AfterDenseUnvisited(maps, axis[..i], axis[i], kinds);
    AfterDenseSnoc(maps, axis[..i], axis[i], kinds);
  }

  /** A prefix of an ascending axis is ascending, lacks the next time, and grows by it. */
  lemma AxisPrefix(axis: seq<int>, i: nat)
    requires Ascending(axis) && i < |axis|
    ensures Ascending(axis[..i]) && axis[i] !in axis[..i]
    ensures axis[..i + 1] == axis[..i] + [axis[i]]
  {
  }

  lemma AfterDenseSnoc(maps: seq<RowMap>, ts: seq<int>, t: int, kinds: seq<Kind>)
    requires AllFitted(maps, kinds)
    ensures AfterDense(maps, ts + [t], kinds) == MergedAt(AfterDense(maps, ts, kinds), t, kinds)
  {
    assert (ts + [t])[..|ts|] == ts;
  }

  lemma AfterDenseWhole(maps: seq<RowMap>, axis: seq<int>, kinds: seq<Kind>)
    requires AllFitted(maps, kinds)
    ensures AfterDense(maps, axis[..|axis|], kinds) == AfterDense(maps, axis, kinds)
  {
    assert axis[..|axis|] == axis;
  }

  /**
    `denseMultichannelStats`: one zero-filled row per axis time, column 0
    the time and column `j + 1` the report of metric `j` merged across every
    row-map that has the time; the first map that has a time is left holding
    the merged accumulators.
   */
  method DenseMultichannelStats(statRowMaps: array<RowMap>, metrics: seq<string>, res: Resolution, start: int, end: int)
    returns (stats: array2<real>)
    requires AllFitted(statRowMaps[..], Kinds(metrics))
    requires Reportable(statRowMaps[..], TimeAxis(start, end, res), Kinds(metrics))
    modifies statRowMaps
    ensures fresh(stats)
    ensures stats.Length0 == |TimeAxis(start, end, res)| && stats.Length1 == |metrics| + 1
    ensures forall i, c | 0 <= i < stats.Length0 && 0 <= c < stats.Length1 ::
      stats[i, c] == DenseRow(old(statRowMaps[..]), TimeAxis(start, end, res)[i], Kinds(metrics))[c]
    ensures statRowMaps[..] == AfterDense(old(statRowMaps[..]), TimeAxis(start, end, res), Kinds(metrics))
  {
    var times := BuildTimes(start, end, res);
    TimeAxisAscending(start, end, res);
    ghost var kinds := Kinds(metrics);
    ghost var orig := statRowMaps[..];
    var rowLen := |metrics| + 1;
    stats := new real[|times|, rowLen]((_, _) => 0.0);
    var i := 0;
    while i < |times|
      invariant 0 <= i <= |times|
      invariant statRowMaps[..] == AfterDense(orig, times[..i], kinds)
      invariant forall x, c | 0 <= x < |times| && 0 <= c < rowLen :: stats[x, c] == if x < i then DenseRow(orig, times[x], kinds)[c] else 0.0
    {
      var t := times[i];
      DenseStep(orig, times, i, kinds);
      var accumulator := CombineAt(statRowMaps, t, kinds);
      FillRow(stats, i, t, accumulator, kinds);
      i := i + 1;
    }
    AfterDenseWhole(orig, times, kinds);
    assert statRowMaps[..] == AfterDense(orig, times, kinds);
    assert forall x, c | 0 <= x < |times| && 0 <= c < rowLen :: stats[x, c] == DenseRow(orig, times[x], kinds)[c];
  }

  /** The row-maps `queryDataAsRowMap` returns fit the variants of the requested metrics. */
  lemma QueryResultFitted(res: Resolution, metrics: seq<string>, vs: seq<Values>)
    requires AllShaped(metrics, vs)
    ensures Fitted(RowMapSpec(res, metrics, vs), Kinds(metrics))
  {
    var m, kinds := RowMapSpec(res, metrics, vs), Kinds(metrics);
    forall b | b in m ensures VecFits(m[b], kinds) {
      RowMapSpecShape(res, metrics, vs, b);
    }
  }

  /** The first error among the per-channel results, in the order they arrive. */
  function FirstError(results: seq<Result<RowMap>>): (r: Option<Error>)
    ensures r.None? <==> forall k | 0 <= k < |results| :: results[k].Ok?
  {
    if results == [] then None
    else if results[0].Err? then Some(results[0].error)
    else
      assert forall k | 1 <= k < |results| :: results[k] == results[1..][k - 1];
      FirstError(results[1..])
  }

  /** The error reported is that of a result every result before which succeeded. */
  lemma {:induction false} FirstErrorIsFirst(results: seq<Result<RowMap>>, k: nat)
    requires k < |results| && results[k].Err? && forall x | 0 <= x < k :: results[x].Ok?
    ensures FirstError(results) == Some(results[k].error)
  {
    if k > 0 {
      assert forall x | 0 <= x < k - 1 :: results[1..][x] == results[x + 1];
      FirstErrorIsFirst(results[1..], k - 1);
    }
  }

  /** The row-maps of results that are all successful. */
  function OkMaps(results: seq<Result<RowMap>>): (maps: seq<RowMap>)
    requires forall k | 0 <= k < |results| :: results[k].Ok?
    ensures |maps| == |results| && forall k | 0 <= k < |results| :: results[k] == Ok(maps[k])
  {
    seq(|results|, k requires 0 <= k < |results| => results[k].value)
  }

  /** Every successful result fits the variants of the requested metrics. */
  predicate ResultsFitted(results: seq<Result<RowMap>>, kinds: seq<Kind>) {
    forall k | 0 <= k < |results| :: results[k].Ok? ==> Fitted(results[k].value, kinds)
  }

  /**
    The sequential part of `GetStats`, given the per-channel results in the
    order they arrive: a resolution other than hours or days is rejected
    before anything else; the first error received is returned; otherwise
    the dense matrix of all row-maps.
   */
  method GetStats(results: seq<Result<RowMap>>, metrics: seq<string>, res: Resolution, start: int, end: int)
    returns (r: Result<array2<real>>)
    requires ResultsFitted(results, Kinds(metrics))
    requires FirstError(results).None? ==>
      AllFitted(OkMaps(results), Kinds(metrics)) &&
      Reportable(OkMaps(results), TimeAxis(start, end, res), Kinds(metrics))
    ensures !Supported(res) ==> r == Err("Unit not recognized")
    ensures Supported(res) && FirstError(results).Some? ==> r == Err(FirstError(results).value)
    ensures Supported(res) && FirstError(results).None? ==>
      r.Ok? && fresh(r.value) &&
      r.value.Length0 == |TimeAxis(start, end, res)| && r.value.Length1 == |metrics| + 1 &&
      forall i, c | 0 <= i < r.value.Length0 && 0 <= c < r.value.Length1 ::
        r.value[i, c] == DenseRow(OkMaps(results), TimeAxis(start, end, res)[i], Kinds(metrics))[c]
  {
    if res != Days && res != Hours {
      return Err("Unit not recognized");
    }
    var resultMaps: seq<RowMap> := [];
    var k := 0;
    while k < |results|
      invariant 0 <= k <= |results| && |resultMaps| == k
      invariant forall x | 0 <= x < k :: results[x] == Ok(resultMaps[x])
    {
      var result := results[k];
      if result.Err? {
        FirstErrorIsFirst(results, k);
        return Err(result.error);
      }
      resultMaps := resultMaps + [result.value];
      k := k + 1;
    }
    assert resultMaps == OkMaps(results);
    var statRowMaps := new RowMap[|resultMaps|](x requires 0 <= x < |resultMaps| => resultMaps[x]);
    assert statRowMaps[..] == resultMaps;
    var stats := DenseMultichannelStats(statRowMaps, metrics, res, start, end);
    return Ok(stats);
  }
}

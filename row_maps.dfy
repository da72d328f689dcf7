/**
  The per-channel row-map builder: a channel's stored monthly rows are decoded
  column by column and folded into a sparse map from bucket key to one
  accumulator per requested metric.
 */
module RowMaps {
  import opened Wrappers
  import opened Resolutions
  import opened Aggregates

  /** The text of one stored attribute: a JSON array of numbers. */
  type Attribute = string

  /** One stored monthly row: attribute text by column name. */
  type RawRow = map<string, Attribute>

  /** Parses one attribute into a series, or fails with an error. */
  type Decoder = Attribute -> Result<seq<real>>

  /** A channel's sparse statistics: per bucket key, one accumulator per requested metric. */
  type RowMap = map<int, seq<Acc>>

  /** The columns decoded from every stored row, in decoding order. */
  const DynamoDbColumns: seq<string> := ["hours", "max_concurrents", "hours_broadcast", "hours_watched"]

  /**
    What decoding a row's columns comes to: the decoded series, the first
    decoding error, or the first column the row does not have (reading a
    missing attribute dereferences a nil pointer in the source).
   */
  datatype RowDecoding = Decoded(values: Values) | Failed(error: Error) | MissingColumn(name: string)

  /** Decodes `cols` in order, adding each series to `acc`; stops at the first column that is missing or fails. */
  function DecodeColumnsFrom(row: RawRow, cols: seq<string>, acc: Values, decode: Decoder): RowDecoding
    decreases |cols|
  {
    if cols == [] then Decoded(acc)
    else if cols[0] !in row then MissingColumn(cols[0])
    else match decode(row[cols[0]])
      case Err(e) => Failed(e)
      case Ok(series) => DecodeColumnsFrom(row, cols[1..], acc[cols[0] := series], decode)
  }

  /**
    Decoding succeeds exactly when every column is present and decodes, and
    then yields every column's series on top of what `acc` held.
   */
  lemma {:induction false} DecodeColumnsFromDecoded(row: RawRow, cols: seq<string>, acc: Values, decode: Decoder)
    ensures var r := DecodeColumnsFrom(row, cols, acc, decode);
      (r.Decoded? <==> forall c | c in cols :: c in row && decode(row[c]).Ok?) &&
      (r.Decoded? ==>
        r.values.Keys == acc.Keys + (set c | c in cols) &&
        (forall c | c in cols :: r.values[c] == decode(row[c]).value) &&
        (forall c | c in acc && c !in cols :: r.values[c] == acc[c]))
    decreases |cols|
  {
    if cols != [] && cols[0] in row && decode(row[cols[0]]).Ok? {
      var c0, rest := cols[0], cols[1..];
      DecodeColumnsFromDecoded(row, rest, acc[c0 := decode(row[c0]).value], decode);
      assert forall c | c in cols :: c == c0 || c in rest;
    } else if cols != [] {
      assert cols[0] in cols;
    }
  }

  /**
    A decoding that does not succeed stops at the first column, in order,
    that is missing or fails: every column before it is present and decodes.
   */
  lemma {:induction false} DecodeColumnsFromStops(row: RawRow, cols: seq<string>, acc: Values, decode: Decoder)
    requires !DecodeColumnsFrom(row, cols, acc, decode).Decoded?
    ensures exists i | 0 <= i < |cols| ::
      (forall k | 0 <= k < i :: cols[k] in row && decode(row[cols[k]]).Ok?) &&
      if cols[i] in row then
        decode(row[cols[i]]).Err? && DecodeColumnsFrom(row, cols, acc, decode) == Failed(decode(row[cols[i]]).error)
      else DecodeColumnsFrom(row, cols, acc, decode) == MissingColumn(cols[i])
    decreases |cols|
  {
    var r := DecodeColumnsFrom(row, cols, acc, decode);
    if cols[0] in row && decode(row[cols[0]]).Ok? {
      var rest, acc' := cols[1..], acc[cols[0] := decode(row[cols[0]]).value];
      assert r == DecodeColumnsFrom(row, rest, acc', decode);
      DecodeColumnsFromStops(row, rest, acc', decode);
      var i :| 0 <= i < |rest| &&
        (forall k | 0 <= k < i :: rest[k] in row && decode(row[rest[k]]).Ok?) &&
        if rest[i] in row then decode(row[rest[i]]).Err? && r == Failed(decode(row[rest[i]]).error)
        else r == MissingColumn(rest[i]);
      assert cols[i + 1] == rest[i];
      forall k | 0 <= k < i + 1 ensures cols[k] in row && decode(row[cols[k]]).Ok? {
        if k > 0 {
          assert cols[k] == rest[k - 1];
        }
      }
    } else {
      assert cols[0] in row ==> r == Failed(decode(row[cols[0]]).error);
    }
  }

  /** A decoding error is the decoder's error on one of the columns. */
  lemma {:induction false} DecodeColumnsFromFailed(row: RawRow, cols: seq<string>, acc: Values, decode: Decoder)
    requires DecodeColumnsFrom(row, cols, acc, decode).Failed?
    ensures exists c | c in cols :: c in row && decode(row[c]) == Err(DecodeColumnsFrom(row, cols, acc, decode).error)
    decreases |cols|
  {
    var c0 := cols[0];
    if decode(row[c0]).Ok? {
      var rest := cols[1..];
      DecodeColumnsFromFailed(row, rest, acc[c0 := decode(row[c0]).value], decode);
      var c :| c in rest && c in row && decode(row[c]) == Err(DecodeColumnsFrom(row, rest, acc[c0 := decode(row[c0]).value], decode).error);
      assert c in cols;
    } else {
      assert c0 in cols;
    }
  }

  /** `queryDataAsRowMap`'s decoding of one row: the four stored columns, in order. */
  function DecodeRow(row: RawRow, decode: Decoder): RowDecoding {
    DecodeColumnsFrom(row, DynamoDbColumns, map[], decode)
  }

  /**
    A decoded row holds exactly the four stored columns, each the decoder's
    series for that attribute; a row fails to decode exactly when one of its
    columns is missing or does not decode.
   */
  lemma DecodeRowColumns(row: RawRow, decode: Decoder)
    ensures var r := DecodeRow(row, decode);
      (r.Decoded? <==> forall c | c in DynamoDbColumns :: c in row && decode(row[c]).Ok?) &&
      (r.Decoded? ==>
        r.values.Keys == {"hours", "max_concurrents", "hours_broadcast", "hours_watched"} &&
        forall c | c in DynamoDbColumns :: r.values[c] == decode(row[c]).value) &&
      (r.Failed? ==> exists c | c in DynamoDbColumns :: c in row && decode(row[c]) == Err(r.error))
  {
    DecodeColumnsFromDecoded(row, DynamoDbColumns, map[], decode);
    var r := DecodeRow(row, decode);
    assert (set c | c in DynamoDbColumns) == {"hours", "max_concurrents", "hours_broadcast", "hours_watched"};
    if r.Failed? {
      DecodeColumnsFromFailed(row, DynamoDbColumns, map[], decode);
    }
  }

  /** Index of the first row that does not decode, or the number of rows when all of them do. */
  function FirstUndecoded(raw: seq<RawRow>, decode: Decoder): (n: nat)
    ensures n <= |raw|
    ensures forall k | 0 <= k < n :: DecodeRow(raw[k], decode).Decoded?
    ensures n < |raw| ==> !DecodeRow(raw[n], decode).Decoded?
  {
    if raw == [] || !DecodeRow(raw[0], decode).Decoded? then 0
    else
      var n := 1 + FirstUndecoded(raw[1..], decode);
      assert forall k | 1 <= k < n :: raw[k] == raw[1..][k - 1];
      n
  }

  /** The decoded series of the first `n` rows, all of which decode. */
  function DecodedRows(raw: seq<RawRow>, decode: Decoder, n: nat): (vs: seq<Values>)
    requires n <= FirstUndecoded(raw, decode)
    ensures |vs| == n
    ensures forall k | 0 <= k < n :: DecodeRow(raw[k], decode) == Decoded(vs[k])
  {
    seq(n, k requires 0 <= k < n => DecodeRow(raw[k], decode).values)
  }

  /** The rule registered for a metric name. */
  function RuleOf(name: string): Rule
    requires name in MetricAggregates
  {
    MetricAggregates[name]
  }

  /** Every requested metric is registered. */
  predicate KnownNames(metrics: seq<string>) {
    forall i | 0 <= i < |metrics| :: metrics[i] in MetricAggregates
  }

  /** Every requested metric is registered and its rule can read the row without indexing out of range. */
  predicate ShapedFor(metrics: seq<string>, v: Values) {
    forall i | 0 <= i < |metrics| :: metrics[i] in MetricAggregates && Shaped(MetricAggregates[metrics[i]], v)
  }

  predicate AllShaped(metrics: seq<string>, vs: seq<Values>) {
    forall k | 0 <= k < |vs| :: ShapedFor(metrics, vs[k])
  }

  /**
    What `queryDataAsRowMap` needs to run without panicking: the first row
    that does not decode (if any) is missing no column it reaches, and every
    row processed before it can be read by every requested rule.
   */
  predicate Processable(raw: seq<RawRow>, metrics: seq<string>, decode: Decoder) {
    var n := FirstUndecoded(raw, decode);
    (n < |raw| ==> !DecodeRow(raw[n], decode).MissingColumn?) &&
    forall k | 0 <= k < n :: ShapedFor(metrics, DecodeRow(raw[k], decode).values)
  }

  /**
    A decoded row as the builder uses it: the bucket key of every sample and,
    for every requested metric, the accumulator of every sample.
   */
  datatype RowView = RowView(keys: seq<int>, series: seq<seq<Acc>>)

  /** The variant of a registered metric's accumulators (unregistered names never reach a row). */
  function KindOf(name: string): Kind {
    if name in MetricAggregates then RuleKind(MetricAggregates[name]) else Sum
  }

  function Kinds(metrics: seq<string>): (r: seq<Kind>)
    ensures |r| == |metrics|
  {
    seq(|metrics|, i requires 0 <= i < |metrics| => KindOf(metrics[i]))
  }

  /** One series per metric, each covering every keyed sample, with accumulators of that metric's variant. */
  predicate Fits(w: RowView, kinds: seq<Kind>) {
    |w.series| == |kinds| &&
    forall i | 0 <= i < |kinds| :: |w.keys| <= |w.series[i]| && Uniform(w.series[i], kinds[i])
  }

  predicate AllFit(ws: seq<RowView>, kinds: seq<Kind>) {
    forall k | 0 <= k < |ws| :: Fits(ws[k], kinds)
  }

  /** What `queryDataAsRowMap` computes from a decoded row: `aggrTimes` and every requested rule's accumulators. */
  function View(res: Resolution, metrics: seq<string>, v: Values): (w: RowView)
    requires ShapedFor(metrics, v)
    ensures Fits(w, Kinds(metrics))
  {
    RowView(TimeKeys(res, v), seq(|metrics|, i requires 0 <= i < |metrics| => RuleValues(RuleOf(metrics[i]), v)))
  }

  function Views(res: Resolution, metrics: seq<string>, vs: seq<Values>): (ws: seq<RowView>)
    requires AllShaped(metrics, vs)
    ensures |ws| == |vs| && AllFit(ws, Kinds(metrics))
    ensures forall k | 0 <= k < |vs| :: ws[k] == View(res, metrics, vs[k])
  {
    seq(|vs|, k requires 0 <= k < |vs| => View(res, metrics, vs[k]))
  }

  /** The values among the first `n` whose key is `b`, in order. */
  function Picks(keys: seq<int>, vals: seq<Acc>, b: int, n: nat): (r: seq<Acc>)
    requires n <= |keys| && n <= |vals|
    ensures |r| > 0 <==> b in keys[..n]
  {
    if n == 0 then []
    else
      var prev := Picks(keys, vals, b, n - 1);
      assert keys[..n] == keys[..n - 1] + [keys[n - 1]];
      if keys[n - 1] == b then prev + [vals[n - 1]] else prev
  }

  lemma {:induction false} PicksUniform(keys: seq<int>, vals: seq<Acc>, b: int, n: nat, k: Kind)
    requires n <= |keys| && n <= |vals|
    requires Uniform(vals, k)
    ensures Uniform(Picks(keys, vals, b, n), k)
  {
    if n > 0 {
      PicksUniform(keys, vals, b, n - 1, k);
      var prev := Picks(keys, vals, b, n - 1);
      assert forall i | 0 <= i < |prev| :: (prev + [vals[n - 1]])[i] == prev[i];
    }
  }

  lemma {:induction false} PicksMembers(keys: seq<int>, vals: seq<Acc>, b: int, n: nat, a: Acc)
    requires n <= |keys| && n <= |vals|
    ensures a in Picks(keys, vals, b, n) <==> exists j | 0 <= j < n :: keys[j] == b && vals[j] == a
  {
    if n > 0 {
      PicksMembers(keys, vals, b, n - 1, a);
    }
  }

  /** The bucket keys of the rows `ws`. */
  function KeysOf(ws: seq<RowView>): set<int> {
    if ws == [] then {}
    else
      var keys := ws[|ws| - 1].keys;
      KeysOf(ws[..|ws| - 1]) + set t | t in keys
  }

  /** A key is a bucket of the rows exactly when some sample of some row has it. */
  lemma {:induction false} KeysOfUnion(ws: seq<RowView>, b: int)
    ensures b in KeysOf(ws) <==> exists k | 0 <= k < |ws| :: b in ws[k].keys
  {
    if ws != [] {
      var init := ws[..|ws| - 1];
      KeysOfUnion(init, b);
      if b in KeysOf(init) {
        var k :| 0 <= k < |init| && b in init[k].keys;
        assert ws[k] == init[k];
      }
      if exists k | 0 <= k < |ws| :: b in ws[k].keys {
        var k :| 0 <= k < |ws| && b in ws[k].keys;
        if k < |init| {
          assert ws[k] == init[k];
        }
      }
    }
  }

  lemma KeysOfSnoc(ws: seq<RowView>, w: RowView)
    ensures KeysOf(ws + [w]) == KeysOf(ws) + set t | t in w.keys
  {
    assert (ws + [w])[..|ws|] == ws;
  }

  function UniformConcat(a: seq<Acc>, b: seq<Acc>, k: Kind): (r: seq<Acc>)
    requires Uniform(a, k) && Uniform(b, k)
    ensures r == a + b && Uniform(r, k)
  {
    assert forall i | |a| <= i < |a + b| :: (a + b)[i] == b[i - |a|];
    a + b
  }

  /**
    The accumulators metric `i` contributes to bucket `b` from the rows `ws`:
    row by row, sample by sample, those whose key is `b`.
   */
  function Contribs(ws: seq<RowView>, kinds: seq<Kind>, i: nat, b: int): (r: seq<Acc>)
    requires AllFit(ws, kinds) && i < |kinds|
    ensures |r| > 0 <==> b in KeysOf(ws)
    ensures Uniform(r, kinds[i])
    decreases |ws|
  {
    if ws == [] then []
    else
      var w := ws[|ws| - 1];
      assert Fits(w, kinds);
      var picks := Picks(w.keys, w.series[i], b, |w.keys|);
      assert w.keys[..|w.keys|] == w.keys;
      PicksUniform(w.keys, w.series[i], b, |w.keys|, kinds[i]);
      UniformConcat(Contribs(ws[..|ws| - 1], kinds, i, b), picks, kinds[i])
  }

  /** Some sample of row `w` has key `b` and, for metric `i`, accumulator `a`. */
  predicate Contributes(w: RowView, i: nat, b: int, a: Acc)
    requires i < |w.series| && |w.keys| <= |w.series[i]|
  {
    exists j | 0 <= j < |w.keys| :: w.keys[j] == b && w.series[i][j] == a
  }

  /** Every contribution to bucket `b` is the accumulator of a sample of some row keyed `b`. */
  lemma {:induction false} ContribsSound(ws: seq<RowView>, kinds: seq<Kind>, i: nat, b: int, a: Acc)
    requires AllFit(ws, kinds) && i < |kinds|
    requires a in Contribs(ws, kinds, i, b)
    ensures exists k | 0 <= k < |ws| :: Fits(ws[k], kinds) && Contributes(ws[k], i, b, a)
  {
    var init, w := ws[..|ws| - 1], ws[|ws| - 1];
    assert Fits(w, kinds);
    assert forall k | 0 <= k < |init| :: init[k] == ws[k];
    if a in Contribs(init, kinds, i, b) {
      ContribsSound(init, kinds, i, b, a);
      var k :| 0 <= k < |init| && Fits(init[k], kinds) && Contributes(init[k], i, b, a);
      assert ws[k] == init[k];
    } else {
      PicksMembers(w.keys, w.series[i], b, |w.keys|, a);
      assert Contributes(ws[|ws| - 1], i, b, a);
    }
  }

  /** Every sample of every row keyed `b` contributes its accumulator to bucket `b`. */
  lemma {:induction false} ContribsComplete(ws: seq<RowView>, kinds: seq<Kind>, i: nat, b: int, a: Acc, row: nat)
    requires AllFit(ws, kinds) && i < |kinds|
    requires row < |ws| && Fits(ws[row], kinds) && Contributes(ws[row], i, b, a)
    ensures a in Contribs(ws, kinds, i, b)
  {
    var init, w := ws[..|ws| - 1], ws[|ws| - 1];
    assert Fits(w, kinds);
    assert forall k | 0 <= k < |init| :: init[k] == ws[k];
    if row < |init| {
      ContribsComplete(init, kinds, i, b, a, row);
    } else {
      var j :| 0 <= j < |w.keys| && w.keys[j] == b && w.series[i][j] == a;
      PicksMembers(w.keys, w.series[i], b, |w.keys|, a);
    }
  }

  /** The row-map of the rows `ws`: per bucket, per metric, the merge of that metric's contributions. */
  function RowMapOf(ws: seq<RowView>, kinds: seq<Kind>): (m: RowMap)
    requires AllFit(ws, kinds)
  {
    map b | b in KeysOf(ws) :: seq(|kinds|, i requires 0 <= i < |kinds| => MergeAll(Contribs(ws, kinds, i, b)))
  }

  /**
    The row-map `queryDataAsRowMap` builds from the decoded rows `vs`: one
    entry per bucket key of any sample, holding for each requested metric, in
    order, the merge of that metric's contributions to the bucket.
   */
  function RowMapSpec(res: Resolution, metrics: seq<string>, vs: seq<Values>): RowMap
    requires AllShaped(metrics, vs)
  {
    RowMapOf(Views(res, metrics, vs), Kinds(metrics))
  }

  /**
    The row-map has a key for every bucket of every sample (the union of the
    rows' `aggrTimes`) and no other; no rows give the empty map.
   */
  lemma RowMapSpecKeys(res: Resolution, metrics: seq<string>, vs: seq<Values>, b: int)
    requires AllShaped(metrics, vs)
    ensures b in RowMapSpec(res, metrics, vs) <==> exists k | 0 <= k < |vs| :: b in TimeKeys(res, vs[k])
    ensures vs == [] ==> RowMapSpec(res, metrics, vs) == map[]
  {
    var ws := Views(res, metrics, vs);
    KeysOfUnion(ws, b);
    if exists k | 0 <= k < |vs| :: b in TimeKeys(res, vs[k]) {
      var k :| 0 <= k < |vs| && b in TimeKeys(res, vs[k]);
      assert b in ws[k].keys;
    }
  }

  /**
    Every vector holds one accumulator per requested metric, each a registered
    name, and slot `i` has the variant of `metrics[i]`'s rule.
   */
  lemma RowMapSpecShape(res: Resolution, metrics: seq<string>, vs: seq<Values>, b: int)
    requires AllShaped(metrics, vs)
    requires b in RowMapSpec(res, metrics, vs)
    ensures |RowMapSpec(res, metrics, vs)[b]| == |metrics|
    ensures forall i | 0 <= i < |metrics| ::
      metrics[i] in MetricAggregates && RowMapSpec(res, metrics, vs)[b][i].Variant() == RuleKind(RuleOf(metrics[i]))
  {
    var ws := Views(res, metrics, vs);
    KeysOfUnion(ws, b);
    var k :| 0 <= k < |ws| && b in ws[k].keys;
    assert ShapedFor(metrics, vs[k]);
  }

  /**
    Slot `i` of bucket `b` merges exactly the accumulators metric `i`'s rule
    yields for the samples keyed `b`: every one of them, and nothing else.
   */
  lemma RowMapSpecSlot(res: Resolution, metrics: seq<string>, vs: seq<Values>, b: int, i: nat, a: Acc)
    requires AllShaped(metrics, vs) && vs != [] && i < |metrics|
    ensures metrics[i] in MetricAggregates
    ensures var rule := RuleOf(metrics[i]);
      var ws := Views(res, metrics, vs);
      b in RowMapSpec(res, metrics, vs) ==>
        RowMapSpec(res, metrics, vs)[b][i] == MergeAll(Contribs(ws, Kinds(metrics), i, b)) &&
        (a in Contribs(ws, Kinds(metrics), i, b) <==>
          exists k, j | 0 <= k < |vs| && 0 <= j < |TimeKeys(res, vs[k])| ::
            TimeKeys(res, vs[k])[j] == b && RuleValues(rule, vs[k])[j] == a)
  {
    assert ShapedFor(metrics, vs[0]);
    var rule := RuleOf(metrics[i]);
    var ws, kinds := Views(res, metrics, vs), Kinds(metrics);
    if a in Contribs(ws, kinds, i, b) {
      ContribsSound(ws, kinds, i, b, a);
      var k :| 0 <= k < |ws| && Fits(ws[k], kinds) && Contributes(ws[k], i, b, a);
      var j :| 0 <= j < |ws[k].keys| && ws[k].keys[j] == b && ws[k].series[i][j] == a;
      assert TimeKeys(res, vs[k])[j] == b && RuleValues(rule, vs[k])[j] == a;
    }
    if exists k, j | 0 <= k < |vs| && 0 <= j < |TimeKeys(res, vs[k])| ::
        TimeKeys(res, vs[k])[j] == b && RuleValues(rule, vs[k])[j] == a
    {
      var k, j :| 0 <= k < |vs| && 0 <= j < |TimeKeys(res, vs[k])| &&
        TimeKeys(res, vs[k])[j] == b && RuleValues(rule, vs[k])[j] == a;
      assert ws[k].keys[j] == b && ws[k].series[i][j] == a;
      ContribsComplete(ws, kinds, i, b, a, k);
    }
  }

  /** A slot of the builder's working map: empty (nil in the source) or an accumulator. */
  type Slot = Option<Acc>

  /** The slot a run of contributions leaves: empty when there are none, else their merge. */
  function SlotOf(cs: seq<Acc>): Slot
    requires cs == [] || Uniform(cs, cs[0].Variant())
  {
    if cs == [] then None else Some(MergeAll(cs))
  }

  /** Fills an empty slot with `a`, or merges `a` into the accumulator already there. */
  function Absorb(slot: Slot, a: Acc): Slot
    requires slot.None? || slot.value.Variant() == a.Variant()
  {
    match slot
    case None => Some(a)
    case Some(x) => Some(Merge(x, a))
  }

  /** Absorbing the contributions one by one leaves the slot of their merge. */
  lemma SlotOfSnoc(cs: seq<Acc>, a: Acc)
    requires Uniform(cs + [a], a.Variant())
    ensures Uniform(cs, a.Variant())
    ensures SlotOf(cs).None? || SlotOf(cs).value.Variant() == a.Variant()
    ensures SlotOf(cs + [a]) == Absorb(SlotOf(cs), a)
  {
    assert forall i | 0 <= i < |cs| :: (cs + [a])[i] == cs[i];
    if cs != [] {
      assert (cs + [a])[..|cs|] == cs;
    }
  }

  /** The slot left by the contributions `c` followed by the picks for `b` among the first `n` samples. */
  function Accumulated(c: seq<Acc>, keys: seq<int>, vals: seq<Acc>, b: int, n: nat, k: Kind): Slot
    requires Uniform(c, k) && Uniform(vals, k) && n <= |keys| && n <= |vals|
  {
    PicksUniform(keys, vals, b, n, k);
    SlotOf(UniformConcat(c, Picks(keys, vals, b, n), k))
  }

  /** One more sample fills or merges the slot when its key is `b`, and leaves it alone otherwise. */
  lemma AccumulatedStep(c: seq<Acc>, keys: seq<int>, vals: seq<Acc>, b: int, n: nat, k: Kind)
    requires Uniform(c, k) && Uniform(vals, k) && n < |keys| && n < |vals|
    ensures var before := Accumulated(c, keys, vals, b, n, k);
      (before.None? || before.value.Variant() == vals[n].Variant()) &&
      Accumulated(c, keys, vals, b, n + 1, k) == if keys[n] == b then Absorb(before, vals[n]) else before
  {
    var a, p := vals[n], Picks(keys, vals, b, n);
    PicksUniform(keys, vals, b, n + 1, k);
    PicksUniform(keys, vals, b, n, k);
    if keys[n] == b {
      assert Picks(keys, vals, b, n + 1) == p + [a];
      assert c + (p + [a]) == (c + p) + [a];
      SlotOfSnoc(c + p, a);
    } else {
      assert Picks(keys, vals, b, n + 1) == p;
      assert Uniform(c + p, k) by {
        assert forall x | |c| <= x < |c + p| :: (c + p)[x] == p[x - |c|];
      }
    }
  }

  /** How many samples of the current row metric `i2` has absorbed while metric `i` is at sample `j`. */
  function Progress(i2: nat, i: nat, j: nat, width: nat): nat {
    if i2 < i then width else if i2 == i then j else 0
  }

  /** The working map's vector at `b` between rows, once the rows `ws` are done. */
  function Slots(ws: seq<RowView>, kinds: seq<Kind>, b: int): (r: seq<Slot>)
    requires AllFit(ws, kinds)
    ensures |r| == |kinds|
  {
    seq(|kinds|, i requires 0 <= i < |kinds| => SlotOf(Contribs(ws, kinds, i, b)))
  }

  /** Slot `i2` at `b` once the rows `ws` are done and metric `i2` has absorbed the first `n` samples of row `w`. */
  function PartialSlot(ws: seq<RowView>, kinds: seq<Kind>, w: RowView, b: int, i2: nat, n: nat): Slot
    requires AllFit(ws, kinds) && Fits(w, kinds)
    requires i2 < |kinds| && n <= |w.keys|
  {
    Accumulated(Contribs(ws, kinds, i2, b), w.keys, w.series[i2], b, n, kinds[i2])
  }

  /** The working map's vector at `b` once the rows `ws` are done and, in row `w`, metric `i` has absorbed its first `j` samples. */
  function PartialSlots(ws: seq<RowView>, kinds: seq<Kind>, w: RowView, b: int, i: nat, j: nat): (r: seq<Slot>)
    requires AllFit(ws, kinds) && Fits(w, kinds) && j <= |w.keys|
    ensures |r| == |kinds|
  {
    seq(|kinds|, i2 requires 0 <= i2 < |kinds| => PartialSlot(ws, kinds, w, b, i2, Progress(i2, i, j, |w.keys|)))
  }

  /** Before a row's first metric is absorbed, its vectors are those left by the earlier rows. */
  lemma PartialStart(ws: seq<RowView>, kinds: seq<Kind>, w: RowView, b: int)
    requires AllFit(ws, kinds) && Fits(w, kinds)
    ensures PartialSlots(ws, kinds, w, b, 0, 0) == Slots(ws, kinds, b)
  {
    var p, s := PartialSlots(ws, kinds, w, b, 0, 0), Slots(ws, kinds, b);
    forall i | 0 <= i < |kinds|
      ensures p[i] == s[i]
    {
      var c := Contribs(ws, kinds, i, b);
      assert c + [] == c;
    }
  }

  /** A key no earlier row has gets a vector of empty slots. */
  lemma FreshKeySlots(ws: seq<RowView>, kinds: seq<Kind>, b: int)
    requires AllFit(ws, kinds) && b !in KeysOf(ws)
    ensures Slots(ws, kinds, b) == seq(|kinds|, _ => None)
  {
  }

  /** Absorbing sample `j` of metric `i` changes slot `i` of the sample's bucket and nothing else. */
  lemma PartialStep(ws: seq<RowView>, kinds: seq<Kind>, w: RowView, b: int, i: nat, j: nat)
    requires AllFit(ws, kinds) && Fits(w, kinds)
    requires i < |kinds| && j < |w.keys|
    ensures var before := PartialSlots(ws, kinds, w, b, i, j);
      var a := w.series[i][j];
      (before[i].None? || before[i].value.Variant() == a.Variant()) &&
      PartialSlots(ws, kinds, w, b, i, j + 1) == if w.keys[j] == b then before[i := Absorb(before[i], a)] else before
  {
    var width := |w.keys|;
    var before, after := PartialSlots(ws, kinds, w, b, i, j), PartialSlots(ws, kinds, w, b, i, j + 1);
    assert Progress(i, i, j, width) == j && Progress(i, i, j + 1, width) == j + 1;
    AccumulatedStep(Contribs(ws, kinds, i, b), w.keys, w.series[i], b, j, kinds[i]);
    forall i2 | 0 <= i2 < |kinds| && i2 != i
      ensures after[i2] == before[i2]
    {
      assert Progress(i2, i, j + 1, width) == Progress(i2, i, j, width);
    }
  }

  /** Metric `i` having absorbed every sample is the same state as metric `i + 1` having absorbed none. */
  lemma PartialNextMetric(ws: seq<RowView>, kinds: seq<Kind>, w: RowView, b: int, i: nat)
    requires AllFit(ws, kinds) && Fits(w, kinds)
    ensures PartialSlots(ws, kinds, w, b, i, |w.keys|) == PartialSlots(ws, kinds, w, b, i + 1, 0)
  {
    var width := |w.keys|;
    assert forall i2 :: Progress(i2, i, width, width) == Progress(i2, i + 1, 0, width);
  }

  /** Once every metric has absorbed every sample of `w`, the vectors are those left by the rows `ws + [w]`. */
  lemma PartialRowDone(ws: seq<RowView>, kinds: seq<Kind>, w: RowView, b: int)
    requires AllFit(ws, kinds) && Fits(w, kinds)
    ensures AllFit(ws + [w], kinds)
    ensures PartialSlots(ws, kinds, w, b, |kinds|, 0) == Slots(ws + [w], kinds, b)
  {
    var ws' := ws + [w];
    assert ws'[..|ws|] == ws && ws'[|ws|] == w;
    assert AllFit(ws', kinds) by {
      forall k | 0 <= k < |ws'| ensures Fits(ws'[k], kinds) {
        if k < |ws| {
          assert ws'[k] == ws[k];
        }
      }
    }
    var p, s := PartialSlots(ws, kinds, w, b, |kinds|, 0), Slots(ws', kinds, b);
    forall i | 0 <= i < |kinds|
      ensures p[i] == s[i]
    {
      assert Contribs(ws', kinds, i, b) ==
        Contribs(ws, kinds, i, b) + Picks(w.keys, w.series[i], b, |w.keys|);
    }
  }

  /** Every slot is filled. */
  predicate Filled(slots: seq<Slot>) {
    forall i | 0 <= i < |slots| :: slots[i].Some?
  }

  function Unwrap(slots: seq<Slot>): (r: seq<Acc>)
    requires Filled(slots)
    ensures |r| == |slots| && forall i | 0 <= i < |r| :: slots[i] == Some(r[i])
  {
    seq(|slots|, i requires 0 <= i < |slots| => slots[i].value)
  }

  /** The builder's working map: per bucket key, one slot per requested metric. */
  type Working = map<int, seq<Slot>>

  /** The working map once the rows `ws` are absorbed. */
  predicate AfterRows(stats: Working, ws: seq<RowView>, kinds: seq<Kind>) {
    AllFit(ws, kinds) && stats.Keys == KeysOf(ws) &&
    forall b | b in stats :: stats[b] == Slots(ws, kinds, b)
  }

  /** The working map while row `w` is absorbed after the rows `ws`, metric `i` having absorbed `j` samples. */
  predicate InRow(stats: Working, ws: seq<RowView>, kinds: seq<Kind>, w: RowView, i: nat, j: nat) {
    AllFit(ws, kinds) && Fits(w, kinds) && j <= |w.keys| &&
    stats.Keys == KeysOf(ws + [w]) &&
    forall b | b in stats :: stats[b] == PartialSlots(ws, kinds, w, b, i, j)
  }

  /** Absorbing sample `j` of metric `i` into the working map keeps it in step with the specification. */
  lemma AbsorbStep(stats: Working, ws: seq<RowView>, kinds: seq<Kind>, w: RowView, i: nat, j: nat)
    requires i < |kinds| && j < |w.keys| && InRow(stats, ws, kinds, w, i, j)
    ensures var t, a := w.keys[j], w.series[i][j];
      t in stats && i < |stats[t]| && (stats[t][i].None? || stats[t][i].value.Variant() == a.Variant()) &&
      InRow(stats[t := stats[t][i := Absorb(stats[t][i], a)]], ws, kinds, w, i, j + 1)
  {
    var t, a := w.keys[j], w.series[i][j];
    KeysOfSnoc(ws, w);
    assert t in KeysOf(ws + [w]);
    PartialStep(ws, kinds, w, t, i, j);
    var slots := stats[t][i := Absorb(stats[t][i], a)];
    assert slots == PartialSlots(ws, kinds, w, t, i, j + 1);
    var stats' := stats[t := slots];
    assert stats'.Keys == stats.Keys;
    forall b | b in stats' && b != t
      ensures stats'[b] == PartialSlots(ws, kinds, w, b, i, j + 1)
    {
      PartialStep(ws, kinds, w, b, i, j);
    }
    assert InRow(stats', ws, kinds, w, i, j + 1);
  }

  /** A row fully absorbed leaves the working map of the rows `ws + [w]`. */
  lemma InRowDone(stats: Working, ws: seq<RowView>, kinds: seq<Kind>, w: RowView)
    requires InRow(stats, ws, kinds, w, |kinds|, 0)
    ensures AfterRows(stats, ws + [w], kinds)
  {
    PartialRowDone(ws, kinds, w, 0);
    forall b | b in stats
      ensures stats[b] == Slots(ws + [w], kinds, b)
    {
      PartialRowDone(ws, kinds, w, b);
    }
  }

  /** Once every row is absorbed, every slot is filled and the unwrapped working map is the row-map of the rows. */
  lemma AfterRowsUnwrap(stats: Working, ws: seq<RowView>, kinds: seq<Kind>)
    requires AfterRows(stats, ws, kinds)
    ensures forall b | b in stats :: Filled(stats[b])
    ensures (map b | b in stats :: Unwrap(stats[b])) == RowMapOf(ws, kinds)
  {
    var m := RowMapOf(ws, kinds);
    forall b | b in stats
      ensures Filled(stats[b]) && Unwrap(stats[b]) == m[b]
    {
      assert stats[b] == Slots(ws, kinds, b);
    }
    var result := map b | b in stats :: Unwrap(stats[b]);
    assert result.Keys == m.Keys;
  }

  /** The column loop of `queryDataAsRowMap`: decodes the four stored columns of a row, in order. */
  method DecodeMonth(row: RawRow, decode: Decoder) returns (r: RowDecoding)
    requires !DecodeRow(row, decode).MissingColumn?
    ensures r == DecodeRow(row, decode)
    ensures r.Decoded? ==> r.values.Keys == {"hours", "max_concurrents", "hours_broadcast", "hours_watched"}
  {
    DecodeRowColumns(row, decode);
    var monthData: Values := map[];
    var c := 0;
    while c < |DynamoDbColumns|
      invariant 0 <= c <= |DynamoDbColumns|
      invariant DecodeColumnsFrom(row, DynamoDbColumns[c..], monthData, decode) == DecodeRow(row, decode)
    {
      var name := DynamoDbColumns[c];
      assert DynamoDbColumns[c..][0] == name && DynamoDbColumns[c..][1..] == DynamoDbColumns[c + 1..];
      assert name in row;
      var parsed := decode(row[name]);
      if parsed.Err? {
        return Failed(parsed.error);
      }
      monthData := monthData[name := parsed.value];
      c := c + 1;
    }
    return Decoded(monthData);
  }

  /** The bucket loop of `queryDataAsRowMap`: a vector of empty slots for every new bucket of row `w`. */
  method AddBuckets(stats: Working, ghost ws: seq<RowView>, ghost kinds: seq<Kind>, ghost w: RowView, times: seq<int>, width: nat)
    returns (stats': Working)
    requires AfterRows(stats, ws, kinds) && Fits(w, kinds)
    requires times == w.keys && width == |kinds|
    ensures InRow(stats', ws, kinds, w, 0, 0)
    ensures stats'.Keys == stats.Keys + set t | t in times
  {
    stats' := stats;
    var j := 0;
    while j < |times|
      invariant 0 <= j <= |times|
      invariant stats'.Keys == KeysOf(ws) + set t | t in times[..j]
      invariant forall b | b in stats' :: stats'[b] == Slots(ws, kinds, b)
    {
      var t := times[j];
      if t !in stats' {
        FreshKeySlots(ws, kinds, t);
        stats' := stats'[t := seq(width, _ => None)];
      }
      assert times[..j + 1] == times[..j] + [times[j]];
      j := j + 1;
    }
    assert times[..j] == times;
    KeysOfSnoc(ws, w);
    forall b | b in stats'
      ensures stats'[b] == PartialSlots(ws, kinds, w, b, 0, 0)
    {
      PartialStart(ws, kinds, w, b);
    }
    assert stats'.Keys == KeysOf(ws + [w]);
    assert InRow(stats', ws, kinds, w, 0, 0);
  }

  /** The sample loop of `queryDataAsRowMap` for metric `i`: each accumulator fills its bucket's slot or is merged into it. */
  method AbsorbSamples(stats: Working, ghost ws: seq<RowView>, ghost kinds: seq<Kind>, ghost w: RowView,
                       i: nat, times: seq<int>, values: seq<Acc>)
    returns (stats': Working)
    requires i < |kinds| && InRow(stats, ws, kinds, w, i, 0)
    requires times == w.keys && values == w.series[i]
    ensures InRow(stats', ws, kinds, w, i + 1, 0)
    ensures stats'.Keys == stats.Keys
  {
    stats' := stats;
    var s := 0;
    while s < |times|
      invariant 0 <= s <= |times|
      invariant InRow(stats', ws, kinds, w, i, s)
      invariant stats'.Keys == stats.Keys
    {
      var t := times[s];
      AbsorbStep(stats', ws, kinds, w, i, s);
      stats' := stats'[t := stats'[t][i := Absorb(stats'[t][i], values[s])]];
      s := s + 1;
    }
    forall b | b in stats'
      ensures stats'[b] == PartialSlots(ws, kinds, w, b, i + 1, 0)
    {
      PartialNextMetric(ws, kinds, w, b, i);
    }
    assert InRow(stats', ws, kinds, w, i + 1, 0);
  }

  /** `metricAggregates[name](monthDataMap)`: the registered rule's function applied to a decoded row. */
  method ApplyRule(rule: Rule, v: Values) returns (values: seq<Acc>)
    requires Shaped(rule, v)
    ensures |values| == |Column(v, "hours")| && Uniform(values, RuleKind(rule))
    ensures values == RuleValues(rule, v)
  {
    match rule {
      case AvgConcurrents =>
        values := AggrAvgConcurrents(v);
      case PerSample(metric, maker) =>
        values := AggregateMetricFun(metric, maker, v);
    }
  }

  /**
    The body of the row loop of `queryDataAsRowMap` for a decoded row: its
    buckets, an empty vector for each new one, then every metric's
    accumulators absorbed sample by sample.
   */
  method AbsorbRow(stats: Working, ghost ws: seq<RowView>, ghost kinds: seq<Kind>,
                   res: Resolution, metrics: seq<string>, monthData: Values)
    returns (stats': Working)
    requires AfterRows(stats, ws, kinds) && kinds == Kinds(metrics) && ShapedFor(metrics, monthData)
    ensures AfterRows(stats', ws + [View(res, metrics, monthData)], kinds)
  {
    ghost var w := View(res, metrics, monthData);
    var times := AggrTimes(res, monthData);
    stats' := AddBuckets(stats, ws, kinds, w, times, |metrics|);
    var i := 0;
    while i < |metrics|
      invariant 0 <= i <= |metrics|
      invariant InRow(stats', ws, kinds, w, i, 0)
    {
      var values := ApplyRule(MetricAggregates[metrics[i]], monthData);
      stats' := AbsorbSamples(stats', ws, kinds, w, i, times, values);
      i := i + 1;
    }
    InRowDone(stats', ws, kinds, w);
  }

  /** The returned map: every slot filled, unwrapped. */
  method Finish(stats: Working, ghost ws: seq<RowView>, ghost kinds: seq<Kind>) returns (m: RowMap)
    requires AfterRows(stats, ws, kinds)
    ensures m == RowMapOf(ws, kinds)
  {
    AfterRowsUnwrap(stats, ws, kinds);
    m := map b | b in stats :: Unwrap(stats[b]);
  }

  /** Every row a processable query decodes can be read by every requested rule. */
  lemma ProcessableRows(raw: seq<RawRow>, metrics: seq<string>, decode: Decoder)
    requires Processable(raw, metrics, decode)
    ensures AllShaped(metrics, DecodedRows(raw, decode, FirstUndecoded(raw, decode)))
  {
    var n := FirstUndecoded(raw, decode);
    var rows := DecodedRows(raw, decode, n);
    forall k | 0 <= k < n ensures ShapedFor(metrics, rows[k]) {
      assert DecodeRow(raw[k], decode) == Decoded(rows[k]);
    }
  }

  /** The views of the rows a processable query decodes, up to the first that fails. */
  ghost function QueryViews(res: Resolution, metrics: seq<string>, raw: seq<RawRow>, decode: Decoder): seq<RowView>
    requires Processable(raw, metrics, decode)
  {
    ProcessableRows(raw, metrics, decode);
    Views(res, metrics, DecodedRows(raw, decode, FirstUndecoded(raw, decode)))
  }

  /**
    Row `k` of a processable query, reached after every row before it decoded:
    it is missing no column, and it either decodes to a row whose view is the
    next one, or fails and is the first row that does not decode.
   */
  lemma QueryRow(res: Resolution, metrics: seq<string>, raw: seq<RawRow>, decode: Decoder, k: nat)
    requires Processable(raw, metrics, decode)
    requires k < |raw| && k <= |QueryViews(res, metrics, raw, decode)|
    ensures !DecodeRow(raw[k], decode).MissingColumn?
    ensures DecodeRow(raw[k], decode).Decoded? ==>
      k < |QueryViews(res, metrics, raw, decode)| && ShapedFor(metrics, DecodeRow(raw[k], decode).values) &&
      QueryViews(res, metrics, raw, decode)[k] == View(res, metrics, DecodeRow(raw[k], decode).values)
    ensures DecodeRow(raw[k], decode).Failed? ==> k == FirstUndecoded(raw, decode)
  {
    ProcessableRows(raw, metrics, decode);
  }

  /** The views of a processable query are at most one per row, and one per row when every row decodes. */
  lemma QueryViewsLength(res: Resolution, metrics: seq<string>, raw: seq<RawRow>, decode: Decoder)
    requires Processable(raw, metrics, decode)
    ensures |QueryViews(res, metrics, raw, decode)| == FirstUndecoded(raw, decode) <= |raw|
  {
  }

  /** The working map after the first `k` views and then view `k` is the one after the first `k + 1`. */
  lemma AfterRowsNext(stats: Working, all: seq<RowView>, k: nat, kinds: seq<Kind>)
    requires k < |all| && AfterRows(stats, all[..k] + [all[k]], kinds)
    ensures AfterRows(stats, all[..k + 1], kinds)
  {
    assert all[..k] + [all[k]] == all[..k + 1];
  }

  lemma AfterRowsAll(stats: Working, all: seq<RowView>, kinds: seq<Kind>)
    requires AfterRows(stats, all[..|all|], kinds)
    ensures AfterRows(stats, all, kinds)
  {
    assert all[..|all|] == all;
  }

  /**
    `queryDataAsRowMap`: rows are taken in order; each row's four columns are
    decoded (the first failure is returned and nothing else), its samples are
    bucketed, a vector of empty slots is created for every new bucket, and
    then, metric by metric and sample by sample, each accumulator fills its
    slot or is merged into the one already there.
   */
  method QueryDataAsRowMap(res: Resolution, metrics: seq<string>, raw: seq<RawRow>, decode: Decoder)
    returns (r: Result<RowMap>)
    requires Processable(raw, metrics, decode)
    ensures var n := FirstUndecoded(raw, decode);
      n < |raw| ==> DecodeRow(raw[n], decode).Failed? && r == Err(DecodeRow(raw[n], decode).error)
    ensures var n := FirstUndecoded(raw, decode);
      n == |raw| ==> (AllShaped(metrics, DecodedRows(raw, decode, n)) &&
        r == Ok(RowMapSpec(res, metrics, DecodedRows(raw, decode, n))))
  {
    ghost var kinds := Kinds(metrics);
    ghost var all := QueryViews(res, metrics, raw, decode);
    QueryViewsLength(res, metrics, raw, decode);
    var stats: Working := map[];
    var k := 0;
    while k < |raw|
      invariant 0 <= k <= |all|
      invariant AfterRows(stats, all[..k], kinds)
    {
      QueryRow(res, metrics, raw, decode, k);
      var decoded := DecodeMonth(raw[k], decode);
      if decoded.Failed? {
        return Err(decoded.error);
      }
      stats := AbsorbRow(stats, all[..k], kinds, res, metrics, decoded.values);
      AfterRowsNext(stats, all, k, kinds);
      k := k + 1;
    }
    AfterRowsAll(stats, all, kinds);
    var m := Finish(stats, all, kinds);
    return Ok(m);
  }
}

/** `fetch_btc_data_seconds` after the exchange call: trades become one-row
    candles, which pandas resamples into 1-second OHLCV bars, dropping the
    seconds with no trade. */
module Resample {
  import opened Series
  import opened Market

  /** Width of one resampling bucket: `resample('1s')`, in milliseconds. */
  const BucketMs: int := 1000

  /** Start of the bucket holding millisecond `t` (pandas floors to the second). */
  function Bucket(t: int): (b: int)
    ensures b % BucketMs == 0 && b <= t < b + BucketMs
  {
    (t / BucketMs) * BucketMs
  }

  lemma BucketMonotone(s: int, t: int)
    requires s <= t
    ensures Bucket(s) <= Bucket(t)
  {
  }

  lemma BucketsBefore(rows: seq<Ohlcv>, t: int)
    requires forall i :: 0 <= i < |rows| ==> rows[i].timestamp <= t
    ensures forall i :: 0 <= i < |rows| ==> Bucket(rows[i].timestamp) <= Bucket(t)
  {
    forall i | 0 <= i < |rows| ensures Bucket(rows[i].timestamp) <= Bucket(t) {
      BucketMonotone(rows[i].timestamp, t);
    }
  }

  // ---------------------------------------------------------------- building the rows

  /** The row `[timestamp, price, price, price, price, amount]` built for one trade. */
  function RowOf(t: Trade): Ohlcv {
    Ohlcv(t.timestamp, t.price, t.price, t.price, t.price, t.amount)
  }

  function Rows(trades: seq<Trade>): (rows: seq<Ohlcv>)
    ensures |rows| == |trades|
  {
    seq(|trades|, i requires 0 <= i < |trades| => RowOf(trades[i]))
  }

  function Amounts(trades: seq<Trade>): (r: seq<real>)
    ensures |r| == |trades|
  {
    seq(|trades|, i requires 0 <= i < |trades| => trades[i].amount)
  }

  /** The `for trade in trades: data.append(...)` loop. */
  method TradeRows(trades: seq<Trade>) returns (rows: seq<Ohlcv>)
    ensures rows == Rows(trades)
  {
    rows := [];
    for i := 0 to |trades|
      invariant |rows| == i
      invariant forall k :: 0 <= k < i ==> rows[k] == RowOf(trades[k])
    {
      rows := rows + [RowOf(trades[i])];
    }
  }

  // ---------------------------------------------------------------- resampling

  /** The bar a bucket gets from its first row. */
  function Start(r: Ohlcv): Ohlcv {
    Ohlcv(Bucket(r.timestamp), r.open, r.high, r.low, r.close, r.volume)
  }

  /** Folds one more row of the same bucket into its bar: first open, max
      high, min low, last close, summed volume. */
  function Absorb(b: Ohlcv, r: Ohlcv): Ohlcv {
    Ohlcv(b.timestamp, b.open,
          if r.high > b.high then r.high else b.high,
          if r.low < b.low then r.low else b.low,
          r.close, b.volume + r.volume)
  }

  /** One row into the bars built so far: it joins the last bar when it falls
      into that bar's bucket, and opens a new bar otherwise. */
  function Step(bars: seq<Ohlcv>, r: Ohlcv): seq<Ohlcv> {
    if bars != [] && bars[|bars| - 1].timestamp == Bucket(r.timestamp) then
      bars[..|bars| - 1] + [Absorb(bars[|bars| - 1], r)]
    else
      bars + [Start(r)]
  }

  /** `df.resample('1s').agg({open: first, high: max, low: min, close: last,
      volume: sum}).dropna()` over time-ordered rows; the bar of a bucket is
      stamped with the bucket's start. */
  function Resample(rows: seq<Ohlcv>): (bars: seq<Ohlcv>)
    requires TimeOrdered(rows)
    ensures |bars| <= |rows|
    ensures StrictlyAscending(bars)
    ensures rows == [] <==> bars == []
    ensures rows != [] ==> bars[|bars| - 1].timestamp == Bucket(rows[|rows| - 1].timestamp)
    ensures forall j :: 0 <= j < |bars| ==> bars[j].timestamp % BucketMs == 0
    decreases |rows|
  {
    if rows == [] then []
    else
      var init := rows[..|rows| - 1];
      var r := rows[|rows| - 1];
      assert TimeOrdered(init);
      var prev := Resample(init);
      assert init != [] ==> prev[|prev| - 1].timestamp <= Bucket(r.timestamp) by {
        if init != [] { BucketMonotone(init[|init| - 1].timestamp, r.timestamp); }
      }
      StepShape(prev, r);
      Step(prev, r)
  }

  /** A step keeps the bars ascending and on whole seconds, adds at most one
      bar, and ends on the new row's bucket. */
  lemma StepShape(prev: seq<Ohlcv>, r: Ohlcv)
    requires StrictlyAscending(prev)
    requires forall j :: 0 <= j < |prev| ==> prev[j].timestamp % BucketMs == 0
    requires prev != [] ==> prev[|prev| - 1].timestamp <= Bucket(r.timestamp)
    ensures var bars := Step(prev, r);
      && |prev| <= |bars| <= |prev| + 1
      && bars != []
      && StrictlyAscending(bars)
      && bars[|bars| - 1].timestamp == Bucket(r.timestamp)
      && (forall j :: 0 <= j < |bars| ==> bars[j].timestamp % BucketMs == 0)
  {
    var bars := Step(prev, r);
    if prev != [] && prev[|prev| - 1].timestamp == Bucket(r.timestamp) {
      assert forall j :: 0 <= j < |prev| - 1 ==> bars[j] == prev[j];
    } else {
      assert forall j :: 0 <= j < |prev| ==> bars[j] == prev[j];
    }
  }

  // ---------------------------------------------------------------- the bucket groups

  /** The rows of `rows` that fall into the bucket starting at `k`, in order. */
  function Group(rows: seq<Ohlcv>, k: int): (g: seq<Ohlcv>)
    ensures |g| <= |rows|
    ensures forall x :: x in g ==> x in rows && Bucket(x.timestamp) == k
    decreases |rows|
  {
    if rows == [] then []
    else
      var r := rows[|rows| - 1];
      Group(rows[..|rows| - 1], k) + (if Bucket(r.timestamp) == k then [r] else [])
  }

  function Highs(g: seq<Ohlcv>): (r: seq<real>)
    ensures |r| == |g|
  {
    seq(|g|, i requires 0 <= i < |g| => g[i].high)
  }

  function Lows(g: seq<Ohlcv>): (r: seq<real>)
    ensures |r| == |g|
  {
    seq(|g|, i requires 0 <= i < |g| => g[i].low)
  }

  /** What pandas' aggregation makes of a non-empty bucket. */
  function Aggregate(k: int, g: seq<Ohlcv>): Ohlcv
    requires |g| > 0
  {
    Ohlcv(k, g[0].open, Max(Highs(g)), Min(Lows(g)), g[|g| - 1].close, Sum(Volumes(g)))
  }

  lemma GroupEmpty(rows: seq<Ohlcv>, k: int)
    requires forall i :: 0 <= i < |rows| ==> Bucket(rows[i].timestamp) != k
    ensures Group(rows, k) == []
  {
    if rows != [] {
      GroupEmpty(rows[..|rows| - 1], k);
    }
  }

  lemma AggregateSingle(r: Ohlcv)
    ensures Aggregate(Bucket(r.timestamp), [r]) == Start(r)
  {
    assert Volumes([r]) == [r.volume];
    assert Sum([r.volume]) == r.volume by { assert [r.volume][..0] == []; }
  }

  lemma AggregateSnoc(k: int, g: seq<Ohlcv>, r: Ohlcv)
    requires |g| > 0
    ensures Aggregate(k, g + [r]) == Absorb(Aggregate(k, g), r)
  {
    var g' := g + [r];
    assert Highs(g')[..|g|] == Highs(g);
    assert Lows(g')[..|g|] == Lows(g);
    assert Volumes(g')[..|g|] == Volumes(g);
  }

  /** `b` is the aggregate of the non-empty group of its bucket. */
  ghost predicate BarOf(rows: seq<Ohlcv>, b: Ohlcv) {
    |Group(rows, b.timestamp)| > 0 && b == Aggregate(b.timestamp, Group(rows, b.timestamp))
  }

  /** Every bar is the aggregate of the non-empty group of its bucket. */
  ghost predicate Summarizes(rows: seq<Ohlcv>, bars: seq<Ohlcv>) {
    forall j :: 0 <= j < |bars| ==> BarOf(rows, bars[j])
  }

  /** Every row's bucket has a bar. */
  ghost predicate Covers(rows: seq<Ohlcv>, bars: seq<Ohlcv>) {
    forall i :: 0 <= i < |rows| ==> exists j :: 0 <= j < |bars| && bars[j].timestamp == Bucket(rows[i].timestamp)
  }

  lemma GroupSnoc(init: seq<Ohlcv>, r: Ohlcv, x: int)
    ensures Group(init + [r], x) == Group(init, x) + (if Bucket(r.timestamp) == x then [r] else [])
  {
    assert (init + [r])[..|init|] == init;
  }

  /** What the step lemmas need to know about the bars built so far. */
  ghost predicate Frontier(init: seq<Ohlcv>, prev: seq<Ohlcv>, k: int) {
    && StrictlyAscending(prev)
    && (init == [] <==> prev == [])
    && (prev != [] ==> prev[|prev| - 1].timestamp <= k)
    && (prev != [] ==> forall i :: 0 <= i < |init| ==> Bucket(init[i].timestamp) <= prev[|prev| - 1].timestamp)
  }

  /** A bar of another bucket is untouched by the new row. */
  lemma OtherBucketSummarized(init: seq<Ohlcv>, r: Ohlcv, b: Ohlcv)
    requires BarOf(init, b) && b.timestamp != Bucket(r.timestamp)
    ensures BarOf(init + [r], b)
  {
    var g := Group(init, b.timestamp);
    GroupSnoc(init, r, b.timestamp);
    assert g + [] == g;
  }

  /** The bar of the new row's bucket absorbs it. */
  lemma MergedBar(init: seq<Ohlcv>, r: Ohlcv, b: Ohlcv)
    requires BarOf(init, b) && b.timestamp == Bucket(r.timestamp)
    ensures BarOf(init + [r], Absorb(b, r))
  {
    var k := b.timestamp;
    GroupSnoc(init, r, k);
    AggregateSnoc(k, Group(init, k), r);
  }

  /** A row of a bucket no earlier row reached opens its own bar. */
  lemma OpenedBar(init: seq<Ohlcv>, r: Ohlcv)
    requires forall i :: 0 <= i < |init| ==> Bucket(init[i].timestamp) != Bucket(r.timestamp)
    ensures BarOf(init + [r], Start(r))
  {
    var k := Bucket(r.timestamp);
    GroupEmpty(init, k);
    GroupSnoc(init, r, k);
    assert Group(init + [r], k) == [r];
    AggregateSingle(r);
  }

  lemma MergeSummarizes(init: seq<Ohlcv>, prev: seq<Ohlcv>, r: Ohlcv)
    requires Summarizes(init, prev) && Frontier(init, prev, Bucket(r.timestamp))
    requires prev != [] && prev[|prev| - 1].timestamp == Bucket(r.timestamp)
    ensures Summarizes(init + [r], Step(prev, r))
  {
    var n := |prev|;
    var bars := prev[..n - 1] + [Absorb(prev[n - 1], r)];
    assert Step(prev, r) == bars;
    forall j | 0 <= j < n - 1 ensures BarOf(init + [r], bars[j]) {
      assert bars[j] == prev[j] && prev[j].timestamp < prev[n - 1].timestamp;
      OtherBucketSummarized(init, r, prev[j]);
    }
    MergedBar(init, r, prev[n - 1]);
    assert bars[n - 1] == Absorb(prev[n - 1], r);
  }

  lemma OpenSummarizes(init: seq<Ohlcv>, prev: seq<Ohlcv>, r: Ohlcv)
    requires Summarizes(init, prev) && Frontier(init, prev, Bucket(r.timestamp))
    requires !(prev != [] && prev[|prev| - 1].timestamp == Bucket(r.timestamp))
    ensures Summarizes(init + [r], Step(prev, r))
  {
    var n, k := |prev|, Bucket(r.timestamp);
    var bars := prev + [Start(r)];
    assert Step(prev, r) == bars;
    forall j | 0 <= j < n ensures BarOf(init + [r], bars[j]) {
      assert bars[j] == prev[j] && prev[j].timestamp < k;
      OtherBucketSummarized(init, r, prev[j]);
    }
    OpenedBar(init, r);
    assert bars[n] == Start(r);
  }

  lemma StepSummarizes(init: seq<Ohlcv>, prev: seq<Ohlcv>, r: Ohlcv)
    requires Summarizes(init, prev) && Frontier(init, prev, Bucket(r.timestamp))
    ensures Summarizes(init + [r], Step(prev, r))
  {
    if prev != [] && prev[|prev| - 1].timestamp == Bucket(r.timestamp) {
      MergeSummarizes(init, prev, r);
    } else {
      OpenSummarizes(init, prev, r);
    }
  }

  lemma StepCovers(init: seq<Ohlcv>, prev: seq<Ohlcv>, r: Ohlcv)
    requires Covers(init, prev)
    ensures Covers(init + [r], Step(prev, r))
  {
    var rows, bars, n := init + [r], Step(prev, r), |prev|;
    assert forall j :: 0 <= j < |bars| - 1 ==> bars[j].timestamp == prev[j].timestamp;
    assert bars[|bars| - 1].timestamp == Bucket(r.timestamp);
    forall i | 0 <= i < |rows|
      ensures exists j :: 0 <= j < |bars| && bars[j].timestamp == Bucket(rows[i].timestamp)
    {
      if i < |init| {
        assert rows[i] == init[i];
        var j :| 0 <= j < n && prev[j].timestamp == Bucket(init[i].timestamp);
        assert bars[j].timestamp == prev[j].timestamp;
      } else {
        assert bars[|bars| - 1].timestamp == Bucket(rows[i].timestamp);
      }
    }
  }

  lemma ResampleUnfold(rows: seq<Ohlcv>)
    requires TimeOrdered(rows) && rows != []
    ensures var init := rows[..|rows| - 1];
      && rows == init + [rows[|rows| - 1]]
      && Resample(rows) == Step(Resample(init), rows[|rows| - 1])
  {
  }

  lemma ResampleFrontier(init: seq<Ohlcv>, r: Ohlcv)
    requires TimeOrdered(init + [r])
    ensures TimeOrdered(init)
    ensures Frontier(init, Resample(init), Bucket(r.timestamp))
  {
    assert forall i :: 0 <= i < |init| ==> init[i] == (init + [r])[i];
    if init != [] {
      var last := init[|init| - 1];
      assert (init + [r])[|init| - 1] == last && (init + [r])[|init|] == r;
      BucketMonotone(last.timestamp, r.timestamp);
      BucketsBefore(init, last.timestamp);
    }
  }

  /** The resampler emits exactly the non-empty buckets: each bar is the
      aggregate of the rows of its bucket, and every row's bucket has a bar. */
  lemma {:induction false} ResampleIsGroupAggregate(rows: seq<Ohlcv>)
    requires TimeOrdered(rows)
    ensures Summarizes(rows, Resample(rows))
    ensures Covers(rows, Resample(rows))
    decreases |rows|
  {
    if rows != [] {
      var init, r := rows[..|rows| - 1], rows[|rows| - 1];
      ResampleIsGroupAggregate(init);
      ResampleUnfold(rows);
      ResampleFrontier(init, r);
      StepSummarizes(init, Resample(init), r);
      StepCovers(init, Resample(init), r);
    }
  }

  lemma VolumesSnoc(bars: seq<Ohlcv>, b: Ohlcv)
    ensures Sum(Volumes(bars + [b])) == Sum(Volumes(bars)) + b.volume
  {
    assert Volumes(bars + [b])[..|bars|] == Volumes(bars);
  }

  lemma StepVolume(prev: seq<Ohlcv>, r: Ohlcv)
    ensures Sum(Volumes(Step(prev, r))) == Sum(Volumes(prev)) + r.volume
  {
    if prev != [] && prev[|prev| - 1].timestamp == Bucket(r.timestamp) {
      var n := |prev|;
      assert prev == prev[..n - 1] + [prev[n - 1]];
      VolumesSnoc(prev[..n - 1], prev[n - 1]);
      VolumesSnoc(prev[..n - 1], Absorb(prev[n - 1], r));
    } else {
      VolumesSnoc(prev, Start(r));
    }
  }

  /** Resampling only regroups volume: the bars carry the rows' total. */
  lemma {:induction false} ResampleConservesVolume(rows: seq<Ohlcv>)
    requires TimeOrdered(rows)
    ensures Sum(Volumes(Resample(rows))) == Sum(Volumes(rows))
    decreases |rows|
  {
    if rows != [] {
      var init, r := rows[..|rows| - 1], rows[|rows| - 1];
      ResampleConservesVolume(init);
      ResampleUnfold(rows);
      StepVolume(Resample(init), r);
      VolumesSnoc(init, r);
    }
  }

  lemma AggregateWellFormed(k: int, g: seq<Ohlcv>)
    requires |g| > 0 && WellFormed(g[0]) && WellFormed(g[|g| - 1])
    ensures WellFormed(Aggregate(k, g))
  {
    var last := |g| - 1;
    assert Highs(g)[0] == g[0].high && Highs(g)[last] == g[last].high;
    assert Lows(g)[0] == g[0].low && Lows(g)[last] == g[last].low;
  }

  /** Rows whose low/high bracket open and close give bars that do too. */
  lemma ResampleWellFormed(rows: seq<Ohlcv>)
    requires TimeOrdered(rows)
    requires forall i :: 0 <= i < |rows| ==> WellFormed(rows[i])
    ensures forall j :: 0 <= j < |Resample(rows)| ==> WellFormed(Resample(rows)[j])
  {
    ResampleIsGroupAggregate(rows);
    var bars := Resample(rows);
    forall j | 0 <= j < |bars|
      ensures WellFormed(bars[j])
    {
      assert BarOf(rows, bars[j]);
      var g := Group(rows, bars[j].timestamp);
      assert g[0] in g && g[|g| - 1] in g;
      AggregateWellFormed(bars[j].timestamp, g);
    }
  }

  /** `fetch_btc_data_seconds` on the trades the exchange returned. */
  method SecondBars(trades: seq<Trade>) returns (bars: seq<Ohlcv>)
    requires TimeOrdered(Rows(trades))
    ensures bars == Resample(Rows(trades))
    ensures |bars| <= |trades|
    ensures StrictlyAscending(bars)
    ensures forall j :: 0 <= j < |bars| ==> bars[j].timestamp % BucketMs == 0
    ensures forall j :: 0 <= j < |bars| ==> WellFormed(bars[j])
    ensures Sum(Volumes(bars)) == Sum(Amounts(trades))
  {
    var rows := TradeRows(trades);
    assert TimeOrdered(rows);
    bars := Resample(rows);
    ResampleWellFormed(rows);
    ResampleConservesVolume(rows);
    assert Volumes(rows) == Amounts(trades);
  }

  /** Three trades at 0 ms, 500 ms and 1500 ms make two bars. */
  lemma ResampleExample()
    ensures Resample(Rows([Trade(0, 100.0, 1.0), Trade(500, 102.0, 2.0), Trade(1500, 101.0, 1.0)]))
         == [Ohlcv(0, 100.0, 102.0, 100.0, 102.0, 3.0), Ohlcv(1000, 101.0, 101.0, 101.0, 101.0, 1.0)]
  {
    var r0 := Ohlcv(0, 100.0, 100.0, 100.0, 100.0, 1.0);
    var r1 := Ohlcv(500, 102.0, 102.0, 102.0, 102.0, 2.0);
    var r2 := Ohlcv(1500, 101.0, 101.0, 101.0, 101.0, 1.0);
    assert Rows([Trade(0, 100.0, 1.0), Trade(500, 102.0, 2.0), Trade(1500, 101.0, 1.0)]) == [r0, r1, r2];
    ExampleFirstSecond(r0, r1);
    var b1 := Ohlcv(0, 100.0, 102.0, 100.0, 102.0, 3.0);
    assert Bucket(1500) == 1000;
    var rows := [r0, r1, r2];
    assert TimeOrdered(rows) by {
      assert rows[0].timestamp <= rows[1].timestamp <= rows[2].timestamp;
    }
    assert [r0, r1] + [r2] == rows;
    OpensNewBar([r0, r1], r2, b1);
  }

  /** A row after the second of the only bar so far opens a bar of its own. */
  lemma OpensNewBar(init: seq<Ohlcv>, r: Ohlcv, b: Ohlcv)
    requires TimeOrdered(init) && TimeOrdered(init + [r])
    requires Resample(init) == [b] && b.timestamp != Bucket(r.timestamp)
    ensures Resample(init + [r]) == [b, Start(r)]
  {
    var rows := init + [r];
    assert rows[..|rows| - 1] == init && rows[|rows| - 1] == r;
    ResampleUnfold(rows);
  }

  /** The first two trades share the second starting at 0. */
  lemma ExampleFirstSecond(r0: Ohlcv, r1: Ohlcv)
    requires r0 == Ohlcv(0, 100.0, 100.0, 100.0, 100.0, 1.0)
    requires r1 == Ohlcv(500, 102.0, 102.0, 102.0, 102.0, 2.0)
    ensures TimeOrdered([r0, r1])
    ensures Resample([r0, r1]) == [Ohlcv(0, 100.0, 102.0, 100.0, 102.0, 3.0)]
  {
    var rows := [r0, r1];
    assert TimeOrdered(rows) by {
      assert rows[0].timestamp <= rows[1].timestamp;
    }
    assert rows[..1] == [r0] && [r0][..0] == [];
    assert Resample([r0]) == [Start(r0)];
    assert Bucket(0) == 0 && Bucket(500) == 0;
    ResampleUnfold(rows);
  }
}

/** The indicator engine of `src/data_fetcher.py`: pandas rolling means
    (MA50, MA200), the simple-mean RSI and the recursive-EWMA MACD, over
    exact reals. A NaN produced by pandas is `None`. */
module Indicators {
  import opened Wrappers
  import opened Series
  import opened Market

  const MaShortWindow: nat := 50
  const MaLongWindow: nat := 200
  const RsiPeriod: nat := 14
  const FastSpan: nat := 12
  const SlowSpan: nat := 26
  const SignalSpan: nat := 9

  // ---------------------------------------------------------------- rolling windows

  /** Number of values in the window of width `w` that ends at index `i`. */
  function WindowLen(i: nat, w: nat): (n: nat)
    requires 1 <= w
    ensures 1 <= n <= w && n <= i + 1
  {
    if i + 1 < w then i + 1 else w
  }

  /** First index of the window of width `w` that ends at index `i`. */
  function WindowStart(i: nat, w: nat): (k: nat)
    requires 1 <= w
    ensures k + WindowLen(i, w) == i + 1
  {
    i + 1 - WindowLen(i, w)
  }

  /** The window sum the way an online rolling window keeps it: add the value
      that enters, subtract the one that leaves once the window is full. */
  function WindowSum(xs: seq<real>, w: nat, i: nat): (r: real)
    requires 1 <= w && i < |xs|
    ensures r == Sum(xs[WindowStart(i, w)..i + 1])
    decreases i
  {
    if i == 0 then
      assert xs[0..1][..0] == [];
      xs[0]
    else
      var leaving := if i >= w then xs[i - w] else 0.0;
      WindowStep(xs, w, i);
      WindowSum(xs, w, i - 1) + xs[i] - leaving
  }

  /** Moving the window one step adds the value that enters and, once the
      window is full, takes away the one that leaves. */
  lemma WindowStep(xs: seq<real>, w: nat, i: nat)
    requires 1 <= w && 1 <= i < |xs|
    ensures Sum(xs[WindowStart(i, w)..i + 1])
         == Sum(xs[WindowStart(i - 1, w)..i]) + xs[i] - (if i >= w then xs[i - w] else 0.0)
  {
    var lo := WindowStart(i - 1, w);
    assert xs[lo..i + 1] == xs[lo..i] + [xs[i]];
    SumConcat(xs[lo..i], [xs[i]]);
    assert Sum([xs[i]]) == xs[i] by { assert [xs[i]][..0] == []; }
    if i >= w {
      assert lo == i - w && WindowStart(i, w) == i - w + 1;
      assert xs[lo..i + 1] == [xs[i - w]] + xs[i - w + 1..i + 1];
      SumConcat([xs[i - w]], xs[i - w + 1..i + 1]);
      assert Sum([xs[i - w]]) == xs[i - w] by { assert [xs[i - w]][..0] == []; }
    }
  }

  /** `rolling(window=w, min_periods=minPeriods).mean()`: at each index the
      mean of the last min(i+1, w) values, or NaN while fewer than
      `minPeriods` values are in the window. */
  function RollingMean(xs: seq<real>, w: nat, minPeriods: nat): (r: seq<Option<real>>)
    requires 1 <= w && minPeriods <= w
    ensures |r| == |xs|
    ensures forall i :: 0 <= i < |xs| ==>
      r[i] == if WindowLen(i, w) >= minPeriods then Some(Mean(xs[WindowStart(i, w)..i + 1])) else None
  {
    seq(|xs|, i requires 0 <= i < |xs| =>
      if WindowLen(i, w) >= minPeriods then Some(WindowSum(xs, w, i) / (WindowLen(i, w) as real)) else None)
  }

  /** Moving average `close.rolling(window=w).mean()` (min_periods defaults to w). */
  function MovingAverage(closes: seq<real>, w: nat): (r: seq<Option<real>>)
    requires 1 <= w
    ensures |r| == |closes|
    ensures forall i :: 0 <= i < |closes| ==> (r[i].Some? <==> i >= w - 1)
    ensures forall i :: w - 1 <= i < |closes| ==> r[i] == Some(Mean(closes[i + 1 - w..i + 1]))
  {
    FullWindows(closes, w);
    RollingMean(closes, w, w)
  }

  lemma FullWindows(closes: seq<real>, w: nat)
    requires 1 <= w
    ensures forall i :: 0 <= i < |closes| ==> (RollingMean(closes, w, w)[i].Some? <==> i >= w - 1)
    ensures forall i :: w - 1 <= i < |closes| ==> RollingMean(closes, w, w)[i] == Some(Mean(closes[i + 1 - w..i + 1]))
  {
    var r := RollingMean(closes, w, w);
    forall i | 0 <= i < |closes|
      ensures r[i].Some? <==> i >= w - 1
      ensures i >= w - 1 ==> r[i] == Some(Mean(closes[i + 1 - w..i + 1]))
    {
      assert WindowLen(i, w) >= w <==> i >= w - 1;
      if i >= w - 1 {
        assert WindowStart(i, w) == i + 1 - w;
      }
    }
  }

  /** A moving average never leaves the range of the closes it averages. */
  lemma MovingAverageWithinWindow(closes: seq<real>, w: nat, i: nat)
    requires 1 <= w && w - 1 <= i < |closes|
    ensures MovingAverage(closes, w)[i].Some?
    ensures Min(closes[i + 1 - w..i + 1]) <= MovingAverage(closes, w)[i].value <= Max(closes[i + 1 - w..i + 1])
  {
    MeanBetweenMinAndMax(closes[i + 1 - w..i + 1]);
  }

  // ---------------------------------------------------------------- RSI

  /** `series.diff(1)` at index i: undefined at index 0, and elsewhere the
      step that leads from the previous value to this one. */
  function Delta(xs: seq<real>, i: nat): (r: Option<real>)
    requires i < |xs|
    ensures r.Some? <==> i > 0
    ensures r.Some? ==> xs[i - 1] + r.value == xs[i]
  {
    if i == 0 then None else Some(xs[i] - xs[i - 1])
  }

  /** `delta.where(delta > 0, 0).fillna(0)` and `(-delta.where(delta < 0, 0)).fillna(0)`:
      the gain and the loss of one step. The two are non-negative, at most one
      is positive, and their difference gives the step back. */
  function GainLoss(d: Option<real>): (r: (real, real))
    ensures r.0 >= 0.0 && r.1 >= 0.0
    ensures r.0 == 0.0 || r.1 == 0.0
    ensures d.Some? ==> r.0 - r.1 == d.value
    ensures d.None? ==> r == (0.0, 0.0)
  {
    match d
    case None => (0.0, 0.0)
    case Some(v) => (if v > 0.0 then v else 0.0, if v < 0.0 then -v else 0.0)
  }

  function Gains(xs: seq<real>): (r: seq<real>)
    ensures |r| == |xs| && AllNonNegative(r)
  {
    seq(|xs|, i requires 0 <= i < |xs| => GainLoss(Delta(xs, i)).0)
  }

  function Losses(xs: seq<real>): (r: seq<real>)
    ensures |r| == |xs| && AllNonNegative(r)
  {
    seq(|xs|, i requires 0 <= i < |xs| => GainLoss(Delta(xs, i)).1)
  }

  /** `100 - 100 / (1 + avg_gain / avg_loss)` with IEEE division by zero:
      x/0 for x > 0 is infinite and gives 100; 0/0 is NaN. */
  function RsiFromAverages(avgGain: real, avgLoss: real): (r: Option<real>)
    requires avgGain >= 0.0 && avgLoss >= 0.0
    ensures r.None? <==> avgGain == 0.0 && avgLoss == 0.0
    ensures r.Some? ==> 0.0 <= r.value <= 100.0
    ensures r.Some? ==> r.value == 100.0 * avgGain / (avgGain + avgLoss)
    ensures avgLoss == 0.0 && avgGain > 0.0 ==> r == Some(100.0)
  {
    if avgLoss == 0.0 then
      if avgGain == 0.0 then None else Some(100.0)
    else
      var rs := avgGain / avgLoss;
      assert rs * avgLoss == avgGain;
      assert rs >= 0.0;
      var d := 1.0 + rs;
      assert d * avgLoss == avgLoss + avgGain;
      var q := 100.0 / d;
      assert q * d == 100.0;
      assert q * (avgGain + avgLoss) == 100.0 * avgLoss by {
        assert q * (d * avgLoss) == (q * d) * avgLoss;
      }
      assert (100.0 - q) * (avgGain + avgLoss) == 100.0 * avgGain;
      assert 0.0 < q <= 100.0 by {
        assert d >= 1.0;
        assert q > 0.0;
        ProductNonNegative(q, d - 1.0);
      }
      Some(100.0 - q)
  }

  /** Mean of the non-negative series `xs` over the window ending at i. */
  function WindowMean(xs: seq<real>, period: nat, i: nat): (m: real)
    requires 1 <= period && i < |xs| && AllNonNegative(xs)
    ensures m >= 0.0
    ensures m == 0.0 <==> forall k :: WindowStart(i, period) <= k <= i ==> xs[k] == 0.0
  {
    var win := xs[WindowStart(i, period)..i + 1];
    assert AllNonNegative(win);
    SumOfNonNegatives(win);
    assert forall k :: WindowStart(i, period) <= k <= i ==> xs[k] == win[k - WindowStart(i, period)];
    Mean(win)
  }

  /** `calculate_rsi(series, period)`: RSI of the simple rolling means of
      gains and losses (min_periods=1). */
  function Rsi(closes: seq<real>, period: nat): (r: seq<Option<real>>)
    requires 1 <= period
    ensures |r| == |closes|
    ensures forall i :: 0 <= i < |closes| ==>
      r[i] == RsiFromAverages(WindowMean(Gains(closes), period, i), WindowMean(Losses(closes), period, i))
    ensures forall i :: 0 <= i < |closes| && r[i].Some? ==> 0.0 <= r[i].value <= 100.0
  {
    var g, l := Gains(closes), Losses(closes);
    var avgGain, avgLoss := RollingMean(g, period, 1), RollingMean(l, period, 1);
    seq(|closes|, i requires 0 <= i < |closes| =>
      assert avgGain[i].value == WindowMean(g, period, i) && avgLoss[i].value == WindowMean(l, period, i);
      RsiFromAverages(avgGain[i].value, avgLoss[i].value))
  }

  /** RSI is undefined (NaN) exactly when the close did not move at any step
      of the window; in particular always at index 0. */
  lemma RsiUndefinedIffFlat(closes: seq<real>, period: nat, i: nat)
    requires 1 <= period && i < |closes|
    ensures Rsi(closes, period)[i].None? <==>
      forall k :: WindowStart(i, period) <= k <= i && k >= 1 ==> closes[k] == closes[k - 1]
  {
    var g, l := Gains(closes), Losses(closes);
    assert Rsi(closes, period)[i] == RsiFromAverages(WindowMean(g, period, i), WindowMean(l, period, i));
    NoMovesIffFlat(closes, WindowStart(i, period), i);
  }

  /** A window has neither gains nor losses exactly when no close in it moved. */
  lemma NoMovesIffFlat(closes: seq<real>, lo: nat, i: nat)
    requires lo <= i < |closes|
    ensures ((forall k :: lo <= k <= i ==> Gains(closes)[k] == 0.0) &&
             (forall k :: lo <= k <= i ==> Losses(closes)[k] == 0.0)) <==>
            (forall k :: lo <= k <= i && k >= 1 ==> closes[k] == closes[k - 1])
  {
    forall k | lo <= k <= i
      ensures (Gains(closes)[k] == 0.0 && Losses(closes)[k] == 0.0) <==> (k >= 1 ==> closes[k] == closes[k - 1])
    {
      StillStep(closes, k);
    }
  }

  /** Step k has no gain and no loss exactly when it did not move the close. */
  lemma StillStep(closes: seq<real>, k: nat)
    requires k < |closes|
    ensures (Gains(closes)[k] == 0.0 && Losses(closes)[k] == 0.0) <==> (k >= 1 ==> closes[k] == closes[k - 1])
  {
    var gl := GainLoss(Delta(closes, k));
    assert Gains(closes)[k] == gl.0 && Losses(closes)[k] == gl.1;
  }

  lemma RsiUndefinedAtStart(closes: seq<real>, period: nat)
    requires 1 <= period && |closes| > 0
    ensures Rsi(closes, period)[0].None?
  {
    RsiUndefinedIffFlat(closes, period, 0);
  }

  /** When no step in the window falls and at least one rises, RSI is exactly 100. */
  lemma RsiSaturatesWithoutLosses(closes: seq<real>, period: nat, i: nat, up: nat)
    requires 1 <= period && i < |closes|
    requires forall k :: WindowStart(i, period) <= k <= i && k >= 1 ==> closes[k] >= closes[k - 1]
    requires WindowStart(i, period) <= up <= i && up >= 1 && closes[up] > closes[up - 1]
    ensures Rsi(closes, period)[i] == Some(100.0)
  {
    var g, l := Gains(closes), Losses(closes);
    assert forall k :: WindowStart(i, period) <= k <= i ==> l[k] == 0.0;
    assert g[up] > 0.0;
    assert WindowMean(l, period, i) == 0.0;
    assert WindowMean(g, period, i) > 0.0;
  }

  // ---------------------------------------------------------------- EWMA and MACD

  /** Smoothing factor of `ewm(span=s)`. */
  function Alpha(span: nat): (a: real)
    requires 1 <= span
    ensures 0.0 < a <= 1.0
  {
    2.0 / (span as real + 1.0)
  }

  /** One `adjust=False` step: the new value weighted by `alpha`, the previous average by `1 - alpha`. */
  function Blend(alpha: real, x: real, prev: real): real {
    alpha * x + (1.0 - alpha) * prev
  }

  /** The `adjust=False` recurrence folded over `xs`, starting from `prev`. */
  function EwmFrom(alpha: real, prev: real, xs: seq<real>): (r: seq<real>)
    ensures |r| == |xs|
    ensures |xs| > 0 ==> r[0] == Blend(alpha, xs[0], prev)
    ensures forall t :: 0 < t < |xs| ==> r[t] == Blend(alpha, xs[t], r[t - 1])
    decreases |xs|
  {
    if xs == [] then []
    else
      var y := Blend(alpha, xs[0], prev);
      var rest := EwmFrom(alpha, y, xs[1..]);
      assert forall t :: 1 < t < |xs| ==> xs[1..][t - 1] == xs[t];
      [y] + rest
  }

  /** `series.ewm(alpha=alpha, adjust=False).mean()`: seeded with the first value. */
  function Ewm(xs: seq<real>, alpha: real): (r: seq<real>)
    ensures |r| == |xs|
    ensures |xs| > 0 ==> r[0] == xs[0]
    ensures forall t :: 0 < t < |xs| ==> r[t] == Blend(alpha, xs[t], r[t - 1])
  {
    if xs == [] then [] else [xs[0]] + EwmFrom(alpha, xs[0], xs[1..])
  }

  lemma ProductNonNegative(a: real, b: real)
    requires a >= 0.0 && b >= 0.0
    ensures a * b >= 0.0
  {
  }

  lemma ConvexStep(alpha: real, x: real, y: real, lo: real, hi: real)
    requires 0.0 <= alpha <= 1.0 && lo <= x <= hi && lo <= y <= hi
    ensures lo <= Blend(alpha, x, y) <= hi
  {
    var beta := 1.0 - alpha;
    ProductNonNegative(alpha, x - lo);
    ProductNonNegative(alpha, hi - x);
    ProductNonNegative(beta, y - lo);
    ProductNonNegative(beta, hi - y);
    assert alpha * lo + beta * lo == lo && alpha * hi + beta * hi == hi;
  }

  /** An EWMA is a running convex combination: it stays within any range that
      holds every input up to that index. */
  lemma {:induction false} EwmWithinRange(xs: seq<real>, alpha: real, lo: real, hi: real, t: nat)
    requires 0.0 <= alpha <= 1.0 && t < |xs|
    requires forall k :: 0 <= k <= t ==> lo <= xs[k] <= hi
    ensures lo <= Ewm(xs, alpha)[t] <= hi
    decreases t
  {
    if t > 0 {
      var e := Ewm(xs, alpha);
      EwmWithinRange(xs, alpha, lo, hi, t - 1);
      ConvexStep(alpha, xs[t], e[t - 1], lo, hi);
    }
  }

  /** The three MACD columns. */
  datatype MacdSeries = MacdSeries(macd: seq<real>, signal: seq<real>, histogram: seq<real>)

  /** `calculate_macd(series, 12, 26, 9)`. */
  function Macd(closes: seq<real>): (r: MacdSeries)
    ensures |r.macd| == |r.signal| == |r.histogram| == |closes|
    ensures forall i :: 0 <= i < |closes| ==>
      r.macd[i] == Ewm(closes, Alpha(FastSpan))[i] - Ewm(closes, Alpha(SlowSpan))[i]
    ensures r.signal == Ewm(r.macd, Alpha(SignalSpan))
    ensures forall i :: 0 <= i < |closes| ==> r.histogram[i] == r.macd[i] - r.signal[i]
    ensures |closes| > 0 ==> r.macd[0] == 0.0 && r.signal[0] == 0.0 && r.histogram[0] == 0.0
  {
    var fast := Ewm(closes, Alpha(FastSpan));
    var slow := Ewm(closes, Alpha(SlowSpan));
    var macd := seq(|closes|, i requires 0 <= i < |closes| => fast[i] - slow[i]);
    var signal := Ewm(macd, Alpha(SignalSpan));
    MacdSeries(macd, signal, seq(|closes|, i requires 0 <= i < |closes| => macd[i] - signal[i]))
  }

  /** A constant price series has MACD, signal and histogram identically zero. */
  lemma MacdOfConstantSeries(closes: seq<real>, c: real)
    requires forall k :: 0 <= k < |closes| ==> closes[k] == c
    ensures forall i :: 0 <= i < |closes| ==>
      Macd(closes).macd[i] == 0.0 && Macd(closes).signal[i] == 0.0 && Macd(closes).histogram[i] == 0.0
  {
    var r := Macd(closes);
    forall i | 0 <= i < |closes|
      ensures r.macd[i] == 0.0
    {
      EwmWithinRange(closes, Alpha(FastSpan), c, c, i);
      EwmWithinRange(closes, Alpha(SlowSpan), c, c, i);
    }
    forall i | 0 <= i < |closes|
      ensures r.signal[i] == 0.0
    {
      EwmWithinRange(r.macd, Alpha(SignalSpan), 0.0, 0.0, i);
    }
  }

  // ---------------------------------------------------------------- the daily frame

  /** The frame `fetch_btc_data_daily` returns: the hourly bars with their indicator columns. */
  datatype DailyFrame = DailyFrame(
    bars: seq<Ohlcv>,
    ma50: seq<Option<real>>, ma200: seq<Option<real>>,
    rsi: seq<Option<real>>,
    macd: seq<real>, macdSignal: seq<real>, macdHist: seq<real>)

  /** `fetch_btc_data_daily` after the exchange call: every indicator column is
      aligned index for index with the bars. */
  function BuildDailyFrame(bars: seq<Ohlcv>): (f: DailyFrame)
    ensures f.bars == bars
    ensures |f.ma50| == |f.ma200| == |f.rsi| == |bars|
    ensures |f.macd| == |f.macdSignal| == |f.macdHist| == |bars|
    ensures f.ma50 == MovingAverage(Closes(bars), MaShortWindow)
    ensures f.ma200 == MovingAverage(Closes(bars), MaLongWindow)
    ensures f.rsi == Rsi(Closes(bars), RsiPeriod)
    ensures Macd(Closes(bars)) == MacdSeries(f.macd, f.macdSignal, f.macdHist)
  {
    var closes := Closes(bars);
    var m := Macd(closes);
    DailyFrame(bars, MovingAverage(closes, MaShortWindow), MovingAverage(closes, MaLongWindow),
               Rsi(closes, RsiPeriod), m.macd, m.signal, m.histogram)
  }
}

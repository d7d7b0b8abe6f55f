/** The volume heatmap of `update_charts` in `app.py`: bars are bucketed by
    UTC day and `HH:MM` time of day, and `pivot_table` lays the mean volume
    of each bucket out as a dense day by time matrix, zero where empty. */
module VolumeHeatmap {
  import opened Series
  import opened Market

  const MsPerMinute: int := 60_000
  const MinutesPerDay: int := 1440

  // ---------------------------------------------------------------- bucketing

  /** `timestamp.dt.date`, as the number of UTC days since 1970-01-01: the
      day whose midnight-to-midnight span holds `ts`. */
  function Day(ts: int): (d: int)
    ensures d * MsPerDay <= ts < (d + 1) * MsPerDay
  {
    ts / MsPerDay
  }

  /** Minutes since UTC midnight: the minute of `ts`'s day that holds `ts`. */
  function MinuteOfDay(ts: int): (m: int)
    ensures 0 <= m < MinutesPerDay
    ensures Day(ts) * MsPerDay + m * MsPerMinute <= ts < Day(ts) * MsPerDay + (m + 1) * MsPerMinute
  {
    (ts % MsPerDay) / MsPerMinute
  }

  /** The number two decimal digit characters spell. */
  function DigitsValue(tens: char, ones: char): int {
    ((tens as int) - ('0' as int)) * 10 + ((ones as int) - ('0' as int))
  }

  /** The two decimal digits of `n`, zero-padded. */
  function TwoDigits(n: int): (s: string)
    requires 0 <= n < 100
    ensures |s| == 2 && '0' <= s[0] <= '9' && '0' <= s[1] <= '9'
    ensures DigitsValue(s[0], s[1]) == n
  {
    ['0' + (n / 10) as char, '0' + (n % 10) as char]
  }

  /** `strftime('%H:%M')` of the minute `m` of the day: the first two digits
      spell the hour, the last two the minute within it. */
  function Label(m: int): (s: string)
    requires 0 <= m < MinutesPerDay
    ensures |s| == 5 && s[2] == ':'
    ensures '0' <= s[0] <= '9' && '0' <= s[1] <= '9' && '0' <= s[3] <= '9' && '0' <= s[4] <= '9'
    ensures DigitsValue(s[0], s[1]) == m / 60 < 24
    ensures DigitsValue(s[3], s[4]) == m % 60
  {
    TwoDigits(m / 60) + ":" + TwoDigits(m % 60)
  }

  /** The `HH:MM` label of the UTC time of day of `ts`: hour and minute
      recompose the minute of the day. */
  function TimeLabel(ts: int): (s: string)
    ensures |s| == 5 && s[2] == ':'
    ensures '0' <= s[0] <= '9' && '0' <= s[1] <= '9' && '0' <= s[3] <= '9' && '0' <= s[4] <= '9'
    ensures 0 <= DigitsValue(s[0], s[1]) < 24 && 0 <= DigitsValue(s[3], s[4]) < 60
    ensures DigitsValue(s[0], s[1]) * 60 + DigitsValue(s[3], s[4]) == MinuteOfDay(ts)
  {
    Label(MinuteOfDay(ts))
  }

  /** Python's `<` on strings: lexicographic by code point. */
  predicate LexLess(a: string, b: string)
    decreases |a|
  {
    if a == [] then b != []
    else if b == [] then false
    else a[0] < b[0] || (a[0] == b[0] && LexLess(a[1..], b[1..]))
  }

  lemma TwoDigitsOrder(x: int, y: int)
    requires 0 <= x < 100 && 0 <= y < 100
    ensures x < y <==> (TwoDigits(x)[0] < TwoDigits(y)[0] ||
                        (TwoDigits(x)[0] == TwoDigits(y)[0] && TwoDigits(x)[1] < TwoDigits(y)[1]))
    ensures x == y <==> TwoDigits(x) == TwoDigits(y)
  {
  }

  /** Zero padding makes the lexical order of the labels the order of the
      minutes they name, and distinct minutes get distinct labels. */
  lemma LabelOrder(m1: int, m2: int)
    requires 0 <= m1 < MinutesPerDay && 0 <= m2 < MinutesPerDay
    ensures LexLess(Label(m1), Label(m2)) <==> m1 < m2
    ensures Label(m1) == Label(m2) <==> m1 == m2
  {
    var a, b := Label(m1), Label(m2);
    var ha, ma, hb, mb := TwoDigits(m1 / 60), TwoDigits(m1 % 60), TwoDigits(m2 / 60), TwoDigits(m2 % 60);
    assert a == ha + ":" + ma && b == hb + ":" + mb;
    assert a[0] == ha[0] && a[1] == ha[1] && a[3] == ma[0] && a[4] == ma[1];
    assert b[0] == hb[0] && b[1] == hb[1] && b[3] == mb[0] && b[4] == mb[1];
    TwoDigitsOrder(m1 / 60, m2 / 60);
    TwoDigitsOrder(m1 % 60, m2 % 60);
    LexLessFive(a, b);
    assert m1 == 60 * (m1 / 60) + m1 % 60 && m2 == 60 * (m2 / 60) + m2 % 60;
    assert a == b <==> a[..2] == b[..2] && a[3..] == b[3..];
  }

  /** Lexical order on two five-character strings that agree in the middle
      compares the first two characters, then the last two. */
  lemma LexLessFive(a: string, b: string)
    requires |a| == 5 && |b| == 5 && a[2] == b[2]
    ensures LexLess(a, b) <==>
              (a[0] < b[0] || (a[0] == b[0] && (a[1] < b[1] ||
                (a[1] == b[1] && (a[3] < b[3] || (a[3] == b[3] && a[4] < b[4]))))))
  {
    assert a[1..][1..] == a[2..] && b[1..][1..] == b[2..];
    assert a[2..][1..] == a[3..] && b[2..][1..] == b[3..];
    assert a[3..][1..] == a[4..] && b[3..][1..] == b[4..];
    assert a[4..][1..] == [] && b[4..][1..] == [];
    assert LexLess(a[4..], b[4..]) <==> a[4] < b[4];
    assert LexLess(a[3..], b[3..]) <==> a[3] < b[3] || (a[3] == b[3] && a[4] < b[4]);
    assert LexLess(a[2..], b[2..]) <==> LexLess(a[3..], b[3..]);
    assert LexLess(a[1..], b[1..]) <==> a[1] < b[1] || (a[1] == b[1] && LexLess(a[2..], b[2..]));
  }

  // ---------------------------------------------------------------- sorted distinct keys

  predicate Increasing(s: seq<int>) {
    forall i, j :: 0 <= i < j < |s| ==> s[i] < s[j]
  }

  /** Inserts `x` into an increasing sequence unless it is already there. */
  function Insert(s: seq<int>, x: int): (r: seq<int>)
    requires Increasing(s)
    ensures Increasing(r)
    ensures forall y :: y in r <==> y in s || y == x
    decreases |s|
  {
    if s == [] then [x]
    else if x < s[0] then
      assert forall k :: 0 <= k < |s| ==> x < s[k];
      ConsIncreasing(x, s);
      [x] + s
    else if x == s[0] then s
    else
      var r := Insert(s[1..], x);
      assert forall k :: 0 <= k < |r| ==> s[0] < r[k] by {
        HeadBelowTail(s);
        forall k | 0 <= k < |r| ensures s[0] < r[k] {
          assert r[k] in r;
        }
      }
      ConsIncreasing(s[0], r);
      [s[0]] + r
  }

  lemma ConsIncreasing(a: int, t: seq<int>)
    requires Increasing(t) && forall k :: 0 <= k < |t| ==> a < t[k]
    ensures Increasing([a] + t)
  {
    var u := [a] + t;
    forall i, j | 0 <= i < j < |u| ensures u[i] < u[j] {
      assert u[j] == t[j - 1];
      if i > 0 { assert u[i] == t[i - 1]; }
    }
  }

  /** The head of an increasing sequence is below everything after it. */
  lemma HeadBelowTail(s: seq<int>)
    requires Increasing(s) && s != []
    ensures forall y :: y in s[1..] ==> s[0] < y
  {
    forall y | y in s[1..] ensures s[0] < y {
      var j :| 0 <= j < |s[1..]| && s[1..][j] == y;
      assert s[j + 1] == y;
    }
  }

  /** The distinct values of `xs`, ascending; the index pandas builds for a pivot axis. */
  function SortedDistinct(xs: seq<int>): (r: seq<int>)
    ensures Increasing(r)
    ensures forall y :: y in r <==> y in xs
    decreases |xs|
  {
    if xs == [] then []
    else Insert(SortedDistinct(xs[..|xs| - 1]), xs[|xs| - 1])
  }

  // ---------------------------------------------------------------- the pivot

  /** The pivot's index, its columns and its values. */
  datatype Heatmap = Heatmap(days: seq<int>, times: seq<string>, cells: seq<seq<real>>)

  function Days(bars: seq<Ohlcv>): (r: seq<int>)
    ensures |r| == |bars|
  {
    seq(|bars|, i requires 0 <= i < |bars| => Day(bars[i].timestamp))
  }

  function Minutes(bars: seq<Ohlcv>): (r: seq<int>)
    ensures |r| == |bars|
  {
    seq(|bars|, i requires 0 <= i < |bars| => MinuteOfDay(bars[i].timestamp))
  }

  /** The volumes of the bars in bucket (day `d`, label `t`), in order. */
  function CellVolumes(bars: seq<Ohlcv>, d: int, t: string): seq<real>
    decreases |bars|
  {
    if bars == [] then []
    else
      var b := bars[|bars| - 1];
      CellVolumes(bars[..|bars| - 1], d, t)
        + (if Day(b.timestamp) == d && TimeLabel(b.timestamp) == t then [b.volume] else [])
  }

  /** `aggfunc='mean'` with `fill_value=0`. */
  function Cell(bars: seq<Ohlcv>, d: int, t: string): real {
    var vs := CellVolumes(bars, d, t);
    if vs == [] then 0.0 else Mean(vs)
  }

  /** `df.pivot_table(values='volume', index='day', columns='time', fill_value=0)`.
      The columns are sorted as strings; they are built here from the sorted
      minutes, which `LabelOrder` shows is the same order. */
  function PivotVolume(bars: seq<Ohlcv>): (h: Heatmap)
    ensures Increasing(h.days)
    ensures forall d :: d in h.days <==> exists k :: 0 <= k < |bars| && Day(bars[k].timestamp) == d
    ensures forall i, j :: 0 <= i < j < |h.times| ==> LexLess(h.times[i], h.times[j])
    ensures forall t :: t in h.times <==> exists k :: 0 <= k < |bars| && TimeLabel(bars[k].timestamp) == t
    ensures |h.cells| == |h.days|
    ensures forall i :: 0 <= i < |h.days| ==> |h.cells[i]| == |h.times|
    ensures forall i, j :: 0 <= i < |h.days| && 0 <= j < |h.times| ==>
      h.cells[i][j] == Cell(bars, h.days[i], h.times[j])
  {
    var days := SortedDistinct(Days(bars));
    var minutes := SortedDistinct(Minutes(bars));
    assert forall j :: 0 <= j < |minutes| ==> 0 <= minutes[j] < MinutesPerDay by {
      MinutesInRange(bars);
    }
    var times := Labels(minutes);
    LabelsFollowMinutes(minutes, times);
    DayIndex(bars);
    TimeColumns(bars, minutes, times);
    Heatmap(days, times, Grid(bars, days, times))
  }

  /** The label of each minute of the day. */
  function Labels(minutes: seq<int>): (times: seq<string>)
    requires forall j :: 0 <= j < |minutes| ==> 0 <= minutes[j] < MinutesPerDay
    ensures |times| == |minutes| && forall j :: 0 <= j < |minutes| ==> times[j] == Label(minutes[j])
  {
    seq(|minutes|, j requires 0 <= j < |minutes| => Label(minutes[j]))
  }

  /** The cells of the pivot, one row per day and one column per label. */
  function Grid(bars: seq<Ohlcv>, days: seq<int>, times: seq<string>): (cells: seq<seq<real>>)
    ensures |cells| == |days|
    ensures forall i :: 0 <= i < |days| ==> |cells[i]| == |times|
    ensures forall i, j :: 0 <= i < |days| && 0 <= j < |times| ==>
      cells[i][j] == Cell(bars, days[i], times[j])
  {
    seq(|days|, i requires 0 <= i < |days| =>
      seq(|times|, j requires 0 <= j < |times| => Cell(bars, days[i], times[j])))
  }

  lemma MinutesInRange(bars: seq<Ohlcv>)
    ensures forall j :: 0 <= j < |SortedDistinct(Minutes(bars))| ==> 0 <= SortedDistinct(Minutes(bars))[j] < MinutesPerDay
  {
    var minutes := SortedDistinct(Minutes(bars));
    forall j | 0 <= j < |minutes| ensures 0 <= minutes[j] < MinutesPerDay {
      assert minutes[j] in Minutes(bars);
    }
  }

  lemma DayIndex(bars: seq<Ohlcv>)
    ensures forall d :: d in SortedDistinct(Days(bars)) <==> exists k :: 0 <= k < |bars| && Day(bars[k].timestamp) == d
  {
    var days := SortedDistinct(Days(bars));
    forall d ensures d in days <==> exists k :: 0 <= k < |bars| && Day(bars[k].timestamp) == d {
      if d in days {
        var k :| 0 <= k < |bars| && Days(bars)[k] == d;
      }
      if exists k :: 0 <= k < |bars| && Day(bars[k].timestamp) == d {
        var k :| 0 <= k < |bars| && Day(bars[k].timestamp) == d;
        assert Days(bars)[k] == d;
      }
    }
  }

  lemma TimeColumns(bars: seq<Ohlcv>, minutes: seq<int>, times: seq<string>)
    requires minutes == SortedDistinct(Minutes(bars))
    requires forall j :: 0 <= j < |minutes| ==> 0 <= minutes[j] < MinutesPerDay
    requires |times| == |minutes| && forall j :: 0 <= j < |minutes| ==> times[j] == Label(minutes[j])
    ensures forall t :: t in times <==> exists k :: 0 <= k < |bars| && TimeLabel(bars[k].timestamp) == t
  {
    forall t ensures t in times <==> exists k :: 0 <= k < |bars| && TimeLabel(bars[k].timestamp) == t {
      if t in times {
        var j :| 0 <= j < |times| && times[j] == t;
        assert minutes[j] in Minutes(bars);
        var k :| 0 <= k < |bars| && Minutes(bars)[k] == minutes[j];
        assert TimeLabel(bars[k].timestamp) == t;
      }
      if exists k :: 0 <= k < |bars| && TimeLabel(bars[k].timestamp) == t {
        var k :| 0 <= k < |bars| && TimeLabel(bars[k].timestamp) == t;
        assert Minutes(bars)[k] in minutes;
        var j :| 0 <= j < |minutes| && minutes[j] == Minutes(bars)[k];
        assert times[j] == t;
      }
    }
  }

  lemma LabelsFollowMinutes(minutes: seq<int>, times: seq<string>)
    requires Increasing(minutes)
    requires forall j :: 0 <= j < |minutes| ==> 0 <= minutes[j] < MinutesPerDay
    requires |times| == |minutes| && forall j :: 0 <= j < |minutes| ==> times[j] == Label(minutes[j])
    ensures forall i, j :: 0 <= i < j < |times| ==> LexLess(times[i], times[j])
  {
    forall i, j | 0 <= i < j < |times| ensures LexLess(times[i], times[j]) {
      LabelOrder(minutes[i], minutes[j]);
    }
  }

  // ---------------------------------------------------------------- cells

  predicate InBucket(b: Ohlcv, d: int, t: string) {
    Day(b.timestamp) == d && TimeLabel(b.timestamp) == t
  }

  /** A cell has volumes exactly when some bar falls into its bucket, so a
      pair of axis values with no bar is filled with zero. */
  lemma {:induction false} CellVolumesEmpty(bars: seq<Ohlcv>, d: int, t: string)
    ensures CellVolumes(bars, d, t) == [] <==> forall k :: 0 <= k < |bars| ==> !InBucket(bars[k], d, t)
    decreases |bars|
  {
    if bars != [] {
      var init := bars[..|bars| - 1];
      CellVolumesEmpty(init, d, t);
      assert forall k :: 0 <= k < |init| ==> init[k] == bars[k];
    }
  }

  lemma EmptyCellIsZero(bars: seq<Ohlcv>, d: int, t: string)
    requires forall k :: 0 <= k < |bars| ==> !InBucket(bars[k], d, t)
    ensures Cell(bars, d, t) == 0.0
  {
    CellVolumesEmpty(bars, d, t);
  }

  /** When bar `k` is the only one in its bucket, the cell is that bar's volume. */
  lemma {:induction false} CellVolumesSingle(bars: seq<Ohlcv>, k: int)
    requires 0 <= k < |bars|
    requires forall k' :: 0 <= k' < |bars| && k' != k ==>
      !InBucket(bars[k'], Day(bars[k].timestamp), TimeLabel(bars[k].timestamp))
    ensures CellVolumes(bars, Day(bars[k].timestamp), TimeLabel(bars[k].timestamp)) == [bars[k].volume]
    decreases |bars|
  {
    var d, t := Day(bars[k].timestamp), TimeLabel(bars[k].timestamp);
    var init := bars[..|bars| - 1];
    assert forall j :: 0 <= j < |init| ==> init[j] == bars[j];
    if k == |bars| - 1 {
      CellVolumesEmpty(init, d, t);
    } else {
      CellVolumesSingle(init, k);
    }
  }

  /** Minute-aligned timestamps in the same bucket are equal. */
  lemma BucketDeterminesTimestamp(ts1: int, ts2: int)
    requires ts1 % MsPerMinute == 0 && ts2 % MsPerMinute == 0
    requires Day(ts1) == Day(ts2) && MinuteOfDay(ts1) == MinuteOfDay(ts2)
    ensures ts1 == ts2
  {
    MinuteSplit(ts1);
    MinuteSplit(ts2);
  }

  lemma MinuteSplit(ts: int)
    requires ts % MsPerMinute == 0
    ensures ts == Day(ts) * MsPerDay + MinuteOfDay(ts) * MsPerMinute
  {
    var r := ts % MsPerDay;
    var q := ts / MsPerMinute;
    assert ts == MsPerMinute * q;
    assert ts == Day(ts) * MsPerDay + r;
    assert r == MsPerMinute * (q - 1440 * Day(ts));
    assert r / MsPerMinute == q - 1440 * Day(ts);
  }

  /** Bars with unique minute-aligned timestamps (the 30-minute bars the
      loader fetches) each sit alone in their cell, which then holds exactly
      that bar's volume: the mean and the sum agree. */
  lemma UniqueBarsFillTheirCells(bars: seq<Ohlcv>)
    requires StrictlyAscending(bars)
    requires forall k :: 0 <= k < |bars| ==> bars[k].timestamp % MsPerMinute == 0
    ensures forall k :: 0 <= k < |bars| ==>
      Cell(bars, Day(bars[k].timestamp), TimeLabel(bars[k].timestamp)) == bars[k].volume
  {
    forall k | 0 <= k < |bars|
      ensures Cell(bars, Day(bars[k].timestamp), TimeLabel(bars[k].timestamp)) == bars[k].volume
    {
      forall k' | 0 <= k' < |bars| && k' != k
        ensures !InBucket(bars[k'], Day(bars[k].timestamp), TimeLabel(bars[k].timestamp))
      {
        var t1, t2 := bars[k'].timestamp, bars[k].timestamp;
        assert t1 != t2;
        LabelOrder(MinuteOfDay(t1), MinuteOfDay(t2));
        if Day(t1) == Day(t2) && MinuteOfDay(t1) == MinuteOfDay(t2) {
          BucketDeterminesTimestamp(t1, t2);
        }
      }
      CellVolumesSingle(bars, k);
      var vs := [bars[k].volume];
      assert Sum(vs) == Sum([]) + bars[k].volume by { assert vs[..0] == []; }
    }
  }

  /** Every bar falls into exactly one cell of the matrix. */
  lemma EveryBarInExactlyOneCell(bars: seq<Ohlcv>, h: Heatmap, k: int)
    requires h == PivotVolume(bars)
    requires 0 <= k < |bars|
    ensures exists i, j :: 0 <= i < |h.days| && 0 <= j < |h.times| && InBucket(bars[k], h.days[i], h.times[j])
    ensures forall i1, j1, i2, j2 ::
      (0 <= i1 < |h.days| && 0 <= j1 < |h.times| && 0 <= i2 < |h.days| && 0 <= j2 < |h.times| &&
       InBucket(bars[k], h.days[i1], h.times[j1]) && InBucket(bars[k], h.days[i2], h.times[j2]))
      ==> i1 == i2 && j1 == j2
  {
    var ts := bars[k].timestamp;
    assert Day(ts) in h.days;
    assert TimeLabel(ts) in h.times;
    var i :| 0 <= i < |h.days| && h.days[i] == Day(ts);
    var j :| 0 <= j < |h.times| && h.times[j] == TimeLabel(ts);
    assert InBucket(bars[k], h.days[i], h.times[j]);
    DistinctAxes(h);
  }

  lemma DistinctAxes(h: Heatmap)
    requires Increasing(h.days)
    requires forall i, j :: 0 <= i < j < |h.times| ==> LexLess(h.times[i], h.times[j])
    ensures forall i1, i2 :: 0 <= i1 < |h.days| && 0 <= i2 < |h.days| && h.days[i1] == h.days[i2] ==> i1 == i2
    ensures forall j1, j2 :: 0 <= j1 < |h.times| && 0 <= j2 < |h.times| && h.times[j1] == h.times[j2] ==> j1 == j2
  {
    forall j1, j2 | 0 <= j1 < |h.times| && 0 <= j2 < |h.times| && h.times[j1] == h.times[j2] ensures j1 == j2 {
      LexLessIrreflexive(h.times[j1]);
    }
  }

  lemma {:induction false} LexLessIrreflexive(a: string)
    ensures !LexLess(a, a)
    decreases |a|
  {
    if a != [] {
      LexLessIrreflexive(a[1..]);
    }
  }

  // ---------------------------------------------------------------- annotation

  /** `pair.split("/")[0]`: the text before the first '/', or all of `pair`. */
  function BaseAsset(pair: string): (r: string)
    ensures '/' !in r
    ensures r <= pair
    ensures |r| < |pair| ==> pair[|r|] == '/'
    decreases |pair|
  {
    if pair == [] || pair[0] == '/' then []
    else [pair[0]] + BaseAsset(pair[1..])
  }
}

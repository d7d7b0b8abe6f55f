/** The records the exchange gateway hands to the core. Timestamps are
    milliseconds since the Unix epoch, prices and amounts exact reals. */
module Market {

  /** Milliseconds in a day. */
  const MsPerDay: int := 86_400_000

  /** One OHLCV row: `[timestamp, open, high, low, close, volume]`. */
  datatype Ohlcv = Ohlcv(timestamp: int, open: real, high: real, low: real, close: real, volume: real)

  /** One executed trade as returned by `fetch_trades`. */
  datatype Trade = Trade(timestamp: int, price: real, amount: real)

  function Closes(bars: seq<Ohlcv>): (r: seq<real>)
    ensures |r| == |bars|
  {
    seq(|bars|, i requires 0 <= i < |bars| => bars[i].close)
  }

  function Volumes(bars: seq<Ohlcv>): (r: seq<real>)
    ensures |r| == |bars|
  {
    seq(|bars|, i requires 0 <= i < |bars| => bars[i].volume)
  }

  /** Low is below open and close, high above them. */
  predicate WellFormed(b: Ohlcv) {
    b.low <= b.open <= b.high && b.low <= b.close <= b.high
  }

  /** Timestamps never decrease (the order the gateway delivers trades in). */
  predicate TimeOrdered(rows: seq<Ohlcv>) {
    forall i, j :: 0 <= i < j < |rows| ==> rows[i].timestamp <= rows[j].timestamp
  }

  /** Timestamps strictly increase: ascending and unique. */
  predicate StrictlyAscending(rows: seq<Ohlcv>) {
    forall i, j :: 0 <= i < j < |rows| ==> rows[i].timestamp < rows[j].timestamp
  }
}

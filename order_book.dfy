/** `fetch_order_book`: the exchange's bid and ask levels become two frames
    with a `price` and an `amount` column each, in the exchange's order. */
module OrderBook {

  /** One `[price, amount]` level of the exchange's reply. */
  datatype Level = Level(price: real, amount: real)

  /** The exchange's reply: bids best-first (descending), asks best-first (ascending). */
  datatype Book = Book(bids: seq<Level>, asks: seq<Level>)

  /** A `DataFrame(levels, columns=['price', 'amount'])`, held column by column. */
  datatype Frame = Frame(price: seq<real>, amount: seq<real>)

  predicate Rectangular(f: Frame) {
    |f.price| == |f.amount|
  }

  function ToFrame(levels: seq<Level>): (f: Frame)
    ensures Rectangular(f) && |f.price| == |levels|
  {
    Frame(seq(|levels|, i requires 0 <= i < |levels| => levels[i].price),
          seq(|levels|, i requires 0 <= i < |levels| => levels[i].amount))
  }

  /** Reads a frame back row by row. */
  function FrameRows(f: Frame): (levels: seq<Level>)
    requires Rectangular(f)
    ensures |levels| == |f.price|
  {
    seq(|f.price|, i requires 0 <= i < |f.price| => Level(f.price[i], f.amount[i]))
  }

  /** Building the frame loses nothing: reading it back gives every level, in order. */
  lemma FrameRoundTrip(levels: seq<Level>)
    ensures FrameRows(ToFrame(levels)) == levels
  {
  }

  /** And every rectangular frame is the frame of its own rows. */
  lemma RowsRoundTrip(f: Frame)
    requires Rectangular(f)
    ensures ToFrame(FrameRows(f)) == f
  {
  }

  /** `fetch_order_book` after the exchange call: returns (bids, asks). */
  function FetchOrderBook(book: Book): (r: (Frame, Frame))
    ensures Rectangular(r.0) && Rectangular(r.1)
    ensures FrameRows(r.0) == book.bids && FrameRows(r.1) == book.asks
  {
    FrameRoundTrip(book.bids);
    FrameRoundTrip(book.asks);
    (ToFrame(book.bids), ToFrame(book.asks))
  }
}

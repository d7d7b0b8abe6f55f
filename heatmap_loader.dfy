/** `src/heatmap.py`: the paginated OHLCV loader, its module-level cache with
    a lazily checked expiry, and the period table.

    The exchange is a finite store of bars with strictly increasing
    timestamps (the exchange's history for one symbol and timeframe);
    `fetch_ohlcv(since, limit)` answers with the first `limit` bars stamped
    at or after `since`. Clock readings are parameters. */
module HeatmapLoader {
  import opened Wrappers
  import opened Market

  // ---------------------------------------------------------------- the exchange

  /** The bars of `store` stamped at or after `since`, in store order: a
      bar is answered exactly when it is stored and stamped at or after `since`. */
  function After(store: seq<Ohlcv>, since: int): (r: seq<Ohlcv>)
    ensures |r| <= |store|
    ensures forall x {:trigger x in r} :: x in r <==> x in store && x.timestamp >= since
    decreases |store|
  {
    if store == [] then []
    else
      assert store == [store[0]] + store[1..];
      if store[0].timestamp >= since then [store[0]] + After(store[1..], since)
      else After(store[1..], since)
  }

  /** `exchange.fetch_ohlcv(symbol, timeframe, since, limit)`. */
  function Page(store: seq<Ohlcv>, since: int, limit: int): seq<Ohlcv> {
    var a := After(store, since);
    if limit < 1 then [] else if |a| <= limit then a else a[..limit]
  }

  lemma {:induction false} AfterAscending(store: seq<Ohlcv>, since: int)
    requires StrictlyAscending(store)
    ensures StrictlyAscending(After(store, since))
    decreases |store|
  {
    if store != [] {
      AfterAscending(store[1..], since);
      if store[0].timestamp >= since {
        var rest := After(store[1..], since);
        forall j | 0 <= j < |rest| ensures store[0].timestamp < rest[j].timestamp {
          assert rest[j] in rest && rest[j] in store[1..];
        }
      }
    }
  }

  /** Filtering at a later cursor gives the same bars as filtering twice. */
  lemma {:induction false} AfterTwice(store: seq<Ohlcv>, s: int, t: int)
    requires s <= t
    ensures After(After(store, s), t) == After(store, t)
    decreases |store|
  {
    if store != [] {
      AfterTwice(store[1..], s, t);
      if store[0].timestamp >= s {
        assert ([store[0]] + After(store[1..], s))[1..] == After(store[1..], s);
      }
    }
  }

  /** In an ascending series, the bars after the k-th one's timestamp are exactly the rest. */
  lemma {:induction false} AfterOwnStamp(c: seq<Ohlcv>, k: nat)
    requires StrictlyAscending(c) && 1 <= k <= |c|
    ensures After(c, c[k - 1].timestamp + 1) == c[k..]
    decreases |c|
  {
    var t := c[k - 1].timestamp + 1;
    if k == 1 {
      AfterAllStamped(c[1..], t);
    } else {
      AfterOwnStamp(c[1..], k - 1);
      assert c[1..][k - 2] == c[k - 1];
      assert c[1..][k - 1..] == c[k..];
    }
  }

  lemma {:induction false} AfterAllStamped(c: seq<Ohlcv>, t: int)
    requires forall j :: 0 <= j < |c| ==> c[j].timestamp >= t
    ensures After(c, t) == c
    decreases |c|
  {
    if c != [] {
      AfterAllStamped(c[1..], t);
    }
  }

  /** The cursor rule `since = ohlcv[-1][0] + 1`: after a page of k bars, the
      next request answers with the bars that follow those k. */
  lemma CursorSkipsPage(store: seq<Ohlcv>, since: int, k: nat)
    requires StrictlyAscending(store)
    requires 1 <= k <= |After(store, since)|
    ensures After(store, NextCursor(After(store, since)[..k])) == After(store, since)[k..]
  {
    var c := After(store, since);
    CursorOfPrefix(c, k);
    AfterStamped(store, since, k - 1);
    AfterTwice(store, since, c[k - 1].timestamp + 1);
    AfterAscending(store, since);
    AfterOwnStamp(c, k);
  }

  lemma CursorOfPrefix(c: seq<Ohlcv>, k: nat)
    requires 1 <= k <= |c|
    ensures NextCursor(c[..k]) == c[k - 1].timestamp + 1
  {
    assert c[..k][k - 1] == c[k - 1];
  }

  /** Each answered bar is stamped at or after the cursor. */
  lemma AfterStamped(store: seq<Ohlcv>, since: int, i: nat)
    requires i < |After(store, since)|
    ensures After(store, since)[i].timestamp >= since
  {
    assert After(store, since)[i] in After(store, since);
  }

  /** A page of `limit` bars is the first `limit` bars that remain. */
  lemma PageIsPrefix(store: seq<Ohlcv>, cursor: int, limit: int)
    requires limit >= 1 && |Page(store, cursor, limit)| == limit
    ensures limit <= |After(store, cursor)|
    ensures Page(store, cursor, limit) == After(store, cursor)[..limit]
  {
  }

  /** A full page: the next cursor answers with what followed it, so less remains. */
  lemma FullPage(store: seq<Ohlcv>, cursor: int, limit: int, done: seq<Ohlcv>, since: int)
    requires StrictlyAscending(store) && limit >= 1
    requires |Page(store, cursor, limit)| == limit
    requires done + After(store, cursor) == After(store, since)
    ensures var page := Page(store, cursor, limit);
      var next := NextCursor(page);
      && (done + page) + After(store, next) == After(store, since)
      && |After(store, next)| < |After(store, cursor)|
  {
    var rest := After(store, cursor);
    var page := Page(store, cursor, limit);
    PageIsPrefix(store, cursor, limit);
    CursorSkipsPage(store, cursor, limit);
    var remaining := After(store, NextCursor(page));
    SplitAfterPrefix(done, rest, limit, page, remaining, After(store, since));
  }

  lemma SplitAfterPrefix(done: seq<Ohlcv>, rest: seq<Ohlcv>, n: nat,
                         page: seq<Ohlcv>, remaining: seq<Ohlcv>, whole: seq<Ohlcv>)
    requires 1 <= n <= |rest| && page == rest[..n] && remaining == rest[n..]
    requires done + rest == whole
    ensures (done + page) + remaining == whole && |remaining| < |rest|
  {
    assert page + remaining == rest;
  }

  /** A short page is everything that remains. */
  lemma ShortPage(store: seq<Ohlcv>, cursor: int, limit: int)
    requires limit >= 1 && |Page(store, cursor, limit)| < limit
    ensures Page(store, cursor, limit) == After(store, cursor)
  {
  }

  // ---------------------------------------------------------------- the page loop

  function Concat(pages: seq<seq<Ohlcv>>): seq<Ohlcv>
    decreases |pages|
  {
    if pages == [] then [] else Concat(pages[..|pages| - 1]) + pages[|pages| - 1]
  }

  lemma ConcatSnoc(pages: seq<seq<Ohlcv>>, p: seq<Ohlcv>)
    ensures Concat(pages + [p]) == Concat(pages) + p
  {
    assert (pages + [p])[..|pages|] == pages;
  }

  /** What the page loop returns: everything from `since` on (nothing at all
      when `limit` admits no bar). */
  function Fetched(store: seq<Ohlcv>, since: int, limit: int): seq<Ohlcv> {
    if limit >= 1 then After(store, since) else []
  }

  /** `ohlcv[-1][0] + 1`: one past the last bar's timestamp. */
  function NextCursor(page: seq<Ohlcv>): int
    requires page != []
  {
    page[|page| - 1].timestamp + 1
  }

  /** The exchange calls so far, all answered with full pages: call j asked
      from `requests[j]` and got `pages[j]`, each cursor follows the previous
      page, and `cursor` is where the next call starts. */
  ghost predicate FullPagesLog(store: seq<Ohlcv>, since: int, limit: int,
                               requests: seq<int>, pages: seq<seq<Ohlcv>>, cursor: int) {
    && |requests| == |pages|
    && (pages == [] ==> cursor == since)
    && (forall j :: 0 <= j < |pages| ==> pages[j] == Page(store, requests[j], limit) && |pages[j]| == limit >= 1)
    && (pages != [] ==> requests[0] == since && cursor == NextCursor(pages[|pages| - 1]))
    && (forall j :: 0 <= j < |pages| - 1 ==> requests[j + 1] == NextCursor(pages[j]))
  }

  /** What the loop promises about its calls once it has stopped. */
  ghost predicate StoppedLog(store: seq<Ohlcv>, since: int, limit: int,
                             requests: seq<int>, pages: seq<seq<Ohlcv>>) {
    && |requests| == |pages| >= 1 && requests[0] == since
    && (forall j :: 0 <= j < |pages| ==> pages[j] == Page(store, requests[j], limit))
    && (forall j :: 0 <= j < |pages| - 1 ==>
          |pages[j]| == limit >= 1 && requests[j + 1] == NextCursor(pages[j]))
    && (pages[|pages| - 1] == [] || |pages[|pages| - 1]| < limit)
  }

  lemma ExtendLog(store: seq<Ohlcv>, since: int, limit: int,
                  requests: seq<int>, pages: seq<seq<Ohlcv>>, cursor: int)
    requires FullPagesLog(store, since, limit, requests, pages, cursor)
    requires limit >= 1 && |Page(store, cursor, limit)| == limit
    ensures var page := Page(store, cursor, limit);
      FullPagesLog(store, since, limit, requests + [cursor], pages + [page], NextCursor(page))
  {
    var page := Page(store, cursor, limit);
    var rs, ps := requests + [cursor], pages + [page];
    assert forall j :: 0 <= j < |pages| ==> ps[j] == pages[j] && rs[j] == requests[j];
  }

  lemma CloseLog(store: seq<Ohlcv>, since: int, limit: int,
                 requests: seq<int>, pages: seq<seq<Ohlcv>>, cursor: int)
    requires FullPagesLog(store, since, limit, requests, pages, cursor)
    requires var page := Page(store, cursor, limit); page == [] || |page| < limit
    ensures StoppedLog(store, since, limit, requests + [cursor], pages + [Page(store, cursor, limit)])
  {
    var page := Page(store, cursor, limit);
    var rs, ps := requests + [cursor], pages + [page];
    assert forall j :: 0 <= j < |pages| ==> ps[j] == pages[j] && rs[j] == requests[j];
  }

  /** The page that stops the loop completes the answer. */
  lemma LastPage(store: seq<Ohlcv>, since: int, limit: int, done: seq<Ohlcv>, cursor: int)
    requires limit >= 1 ==> done + After(store, cursor) == After(store, since)
    requires limit < 1 ==> done == []
    requires var page := Page(store, cursor, limit); page == [] || |page| < limit
    ensures var page := Page(store, cursor, limit);
      (if page != [] then done + page else done) == Fetched(store, since, limit)
  {
    var page := Page(store, cursor, limit);
    if limit >= 1 {
      ShortPage(store, cursor, limit);
      assert done + [] == done;
    }
  }

  /** The `while True` loop of `fetch_ohlcv_with_pagination`. `requests` and
      `pages` record each exchange call's cursor and answer. */
  method FetchPages(store: seq<Ohlcv>, since: int, limit: int)
    returns (all: seq<Ohlcv>, ghost requests: seq<int>, ghost pages: seq<seq<Ohlcv>>)
    requires StrictlyAscending(store)
    ensures all == Fetched(store, since, limit)
    ensures all == Concat(pages)
    ensures StoppedLog(store, since, limit, requests, pages)
  {
    all := [];
    requests, pages := [], [];
    var cursor := since;
    while true
      invariant FullPagesLog(store, since, limit, requests, pages, cursor)
      invariant all == Concat(pages)
      invariant limit >= 1 ==> all + After(store, cursor) == After(store, since)
      invariant limit < 1 ==> pages == [] && all == []
      decreases |After(store, cursor)|
    {
      var page := Page(store, cursor, limit);
      ConcatSnoc(pages, page);
      if page == [] || |page| < limit {
        CloseLog(store, since, limit, requests, pages, cursor);
        LastPage(store, since, limit, all, cursor);
        requests, pages := requests + [cursor], pages + [page];
        if page != [] {
          all := all + page;
          cursor := NextCursor(page);
        }
        break;
      }
      ExtendLog(store, since, limit, requests, pages, cursor);
      FullPage(store, cursor, limit, all, since);
      requests, pages := requests + [cursor], pages + [page];
      all := all + page;
      cursor := NextCursor(page);
    }
  }

  // ---------------------------------------------------------------- the cache

  const MicrosPerHour: int := 3_600_000_000

  /** `timedelta(hours=1) if period == '1week' else timedelta(hours=24)`, in microseconds. */
  function Expiry(period: string): (e: int)
    ensures e == MicrosPerHour <==> period == "1week"
    ensures e == MicrosPerHour || e == 24 * MicrosPerHour
  {
    if period == "1week" then MicrosPerHour else 24 * MicrosPerHour
  }

  /** `f"{symbol}_{period}"`. */
  function CacheKey(symbol: string, period: string): string {
    symbol + "_" + period
  }

  /** The text after the last underscore of `k` (all of `k` if it has none). */
  function AfterLastUnderscore(k: string): string
    decreases |k|
  {
    if k == [] then []
    else if k[|k| - 1] == '_' then []
    else AfterLastUnderscore(k[..|k| - 1]) + [k[|k| - 1]]
  }

  lemma {:induction false} PeriodFromKey(symbol: string, period: string)
    requires '_' !in period
    ensures AfterLastUnderscore(CacheKey(symbol, period)) == period
    decreases |period|
  {
    var k := CacheKey(symbol, period);
    if period == [] {
      assert k[|k| - 1] == '_';
    } else {
      var p' := period[..|period| - 1];
      PeriodFromKey(symbol, p');
      assert k[..|k| - 1] == CacheKey(symbol, p');
    }
  }

  /** For periods without an underscore (all four tab labels), distinct
      (symbol, period) pairs get distinct keys. */
  lemma CacheKeyInjective(s1: string, p1: string, s2: string, p2: string)
    requires '_' !in p1 && '_' !in p2
    ensures CacheKey(s1, p1) == CacheKey(s2, p2) <==> s1 == s2 && p1 == p2
  {
    if CacheKey(s1, p1) == CacheKey(s2, p2) {
      var k := CacheKey(s1, p1);
      PeriodFromKey(s1, p1);
      PeriodFromKey(s2, p2);
      assert s1 == k[..|s1|] == s2;
    }
  }

  /** One cache slot: `{'data': ..., 'timestamp': ...}`; None is Python's None. */
  datatype Entry = Entry(data: Option<seq<Ohlcv>>, timestamp: Option<int>)

  /** The slot a key gets the first time it is looked up. */
  const Placeholder: Entry := Entry(None, None)

  /** The hit test of lines 26-27: both fields set and strictly younger than the expiry. */
  predicate IsFresh(e: Entry, period: string, now: int) {
    e.data.Some? && e.timestamp.Some? && now - e.timestamp.value < Expiry(period)
  }

  /** Which slots are misses: the placeholder of a new key always is, a slot
      with either field unset is, and a slot exactly one expiry old is. */
  lemma MissConditions(e: Entry, period: string, now: int)
    ensures !IsFresh(Placeholder, period, now)
    ensures e.data.None? || e.timestamp.None? ==> !IsFresh(e, period, now)
    ensures e.timestamp.Some? && now == e.timestamp.value + Expiry(period) ==> !IsFresh(e, period, now)
  {
  }

  /** The module-level `cache` dictionary and the function that fills it. */
  class OhlcvCache {
    var entries: map<string, Entry>

    constructor ()
      ensures entries == map[]
    {
      entries := map[];
    }

    /** The slot `key` holds once it has been looked up. */
    function Slot(key: string): Entry
      reads this
    {
      if key in entries then entries[key] else Placeholder
    }

    /** `fetch_ohlcv_with_pagination(symbol, timeframe, since, limit, period)`.
        `now` is the clock reading of the freshness test, `later` the one
        stored after a fetch; `requests` lists the exchange calls made. */
    method FetchOhlcvWithPagination(store: seq<Ohlcv>, symbol: string, timeframe: string,
                                    since: int, limit: int, period: string, now: int, later: int)
      returns (bars: seq<Ohlcv>, ghost requests: seq<int>)
      requires StrictlyAscending(store)
      modifies this
      ensures var key := CacheKey(symbol, period);
        IsFresh(old(Slot(key)), period, now) ==>
          && key in old(entries)
          && bars == old(entries)[key].data.value
          && entries == old(entries)
          && requests == []
      ensures var key := CacheKey(symbol, period);
        !IsFresh(old(Slot(key)), period, now) ==>
          && bars == Fetched(store, since, limit)
          && entries == old(entries)[key := Entry(Some(bars), Some(later))]
          && |requests| >= 1 && requests[0] == since
    {
      var key := CacheKey(symbol, period);
      if key !in entries {
        entries := entries[key := Placeholder];
      }
      var e := entries[key];
      if e.data.Some? && e.timestamp.Some? && now - e.timestamp.value < Expiry(period) {
        return e.data.value, [];
      }
      ghost var pages;
      bars, requests, pages := FetchPages(store, since, limit);
      entries := entries[key := Entry(Some(bars), Some(later))];
    }
  }

  /** A second request for the same key within the expiry window is served
      from the cache with the first payload and no exchange call; one after
      the window fetches again. */
  method RepeatedRequest(cache: OhlcvCache, store1: seq<Ohlcv>, store2: seq<Ohlcv>,
                         symbol: string, timeframe: string, since: int, limit: int, period: string,
                         now1: int, later1: int, now2: int, later2: int)
    returns (first: seq<Ohlcv>, second: seq<Ohlcv>, ghost calls2: seq<int>)
    requires StrictlyAscending(store1) && StrictlyAscending(store2)
    requires CacheKey(symbol, period) !in cache.entries
    modifies cache
    ensures first == Fetched(store1, since, limit)
    ensures now2 - later1 < Expiry(period) ==> second == first && calls2 == []
    ensures now2 - later1 >= Expiry(period) ==> second == Fetched(store2, since, limit) && |calls2| >= 1
  {
    ghost var calls1;
    first, calls1 := cache.FetchOhlcvWithPagination(store1, symbol, timeframe, since, limit, period, now1, later1);
    second, calls2 := cache.FetchOhlcvWithPagination(store2, symbol, timeframe, since, limit, period, now2, later2);
  }

  // ---------------------------------------------------------------- the period table


  datatype TimeframeError = UnboundSince

  /** `get_timeframe_limits(period)` with the clock reading `nowMs` (ms):
      30-minute bars reaching back a week, 30, 90 or 180 days. Any other label
      reaches `return` with `since` unbound, which raises. */
  function GetTimeframeLimits(period: string, nowMs: int): (r: Result<(string, int), TimeframeError>)
    ensures r.Ok? <==> period in ["1week", "1month", "3months", "6months"]
    ensures r.Ok? ==> r.value.0 == "30m" && r.value.1 < nowMs
    ensures period == "1week" ==> r == Ok(("30m", nowMs - 7 * MsPerDay))
    ensures period == "1month" ==> r == Ok(("30m", nowMs - 30 * MsPerDay))
    ensures period == "3months" ==> r == Ok(("30m", nowMs - 90 * MsPerDay))
    ensures period == "6months" ==> r == Ok(("30m", nowMs - 180 * MsPerDay))
  {
    var timeframe := "30m";
    if period == "1week" then Ok((timeframe, nowMs - 7 * MsPerDay))
    else if period == "1month" then Ok((timeframe, nowMs - 30 * MsPerDay))
    else if period == "3months" then Ok((timeframe, nowMs - 90 * MsPerDay))
    else if period == "6months" then Ok((timeframe, nowMs - 180 * MsPerDay))
    else Err(UnboundSince)
  }
}

/**
 * Normalisation of one Yahoo chart payload (lines 63-83): the candle rows
 * are zipped from the parallel arrays `timestamp[]` and
 * `indicators.quote[0].{open,high,low,close,volume}[]`, indexed by the
 * length of `timestamp`. Timestamps and indicator values are copied, never
 * computed on, so their type is a parameter `V`.
 */
module Candles {
  import opened Wrappers

  /** `indicators.quote[0]`: one optional array per price field. */
  datatype Quote<V> = Quote(
    open: Option<seq<V>>,
    high: Option<seq<V>>,
    low: Option<seq<V>>,
    close: Option<seq<V>>,
    volume: Option<seq<V>>)

  /** `result[0].indicators`. */
  datatype Indicators<V> = Indicators(quote: Option<seq<Quote<V>>>)

  /** One element of `chart.result`. */
  datatype ChartResult<V> = ChartResult(timestamp: Option<seq<V>>, indicators: Option<Indicators<V>>)

  /** `chart`. */
  datatype Chart<V> = Chart(result: Option<seq<ChartResult<V>>>)

  /** The decoded JSON body of a 200 reply; `None` marks an absent key. */
  datatype Payload<V> = Payload(chart: Option<Chart<V>>)

  /** One normalised row of the response. */
  datatype Candle<V> = Candle(timestamp: V, open: V, high: V, low: V, close: V, volume: V)

  /**
   * The exception raised inside the `try` of lines 63-83: a `KeyError` for
   * an absent key, an `IndexError` for an index past the end of a list.
   */
  datatype ParseFailure = KeyMissing(key: string) | IndexOutOfRange

  /** `obj[name]` on an object whose key may be absent. */
  function Key<T>(field: Option<T>, name: string): Result<T, ParseFailure>
  {
    match field
    case None => Err(KeyMissing(name))
    case Some(v) => Ok(v)
  }

  /** `items[0]`. */
  function First<T>(items: seq<T>): Result<T, ParseFailure>
  {
    if |items| == 0 then Err(IndexOutOfRange) else Ok(items[0])
  }

  /** `quote[name][i]`. */
  function Item<T>(field: Option<seq<T>>, name: string, i: nat): Result<T, ParseFailure>
  {
    var items :- Key(field, name);
    if i < |items| then Ok(items[i]) else Err(IndexOutOfRange)
  }

  /** Lines 64-66: the timestamp array and the first quote, in the order the source reads them. */
  function Locate<V>(p: Payload<V>): Result<(seq<V>, Quote<V>), ParseFailure>
  {
    var chart :- Key(p.chart, "chart");
    var results :- Key(chart.result, "result");
    var first :- First(results);
    var timestamps :- Key(first.timestamp, "timestamp");
    var indicators :- Key(first.indicators, "indicators");
    var quotes :- Key(indicators.quote, "quote");
    var quote :- First(quotes);
    Ok((timestamps, quote))
  }

  /** Lines 70-77 for index `i`: the dictionary literal reads its fields in this order. */
  function CandleAt<V>(timestamps: seq<V>, q: Quote<V>, i: nat): Result<Candle<V>, ParseFailure>
    requires i < |timestamps|
  {
    var open :- Item(q.open, "open", i);
    var high :- Item(q.high, "high", i);
    var low :- Item(q.low, "low", i);
    var close :- Item(q.close, "close", i);
    var volume :- Item(q.volume, "volume", i);
    Ok(Candle(timestamps[i], open, high, low, close, volume))
  }

  /** The rows from index `i` on; the first index whose row raises decides the failure. */
  function Rows<V>(timestamps: seq<V>, q: Quote<V>, i: nat): Result<seq<Candle<V>>, ParseFailure>
    requires i <= |timestamps|
    decreases |timestamps| - i
  {
    if i == |timestamps| then Ok([])
    else
      var c :- CandleAt(timestamps, q, i);
      var rest :- Rows(timestamps, q, i + 1);
      Ok([c] + rest)
  }

  /** Lines 64-77: the candles of a payload, or the failure the `except` of line 85 catches. */
  function Parse<V>(p: Payload<V>): Result<seq<Candle<V>>, ParseFailure>
  {
    var located :- Locate(p);
    Rows(located.0, located.1, 0)
  }

  /** `rows` put in front of a successful result; a failure stays a failure. */
  function Prepend<V>(rows: seq<Candle<V>>, r: Result<seq<Candle<V>>, ParseFailure>): Result<seq<Candle<V>>, ParseFailure>
  {
    match r
    case Ok(rest) => Ok(rows + rest)
    case Err(f) => Err(f)
  }

  lemma PrependEmpty<V>(r: Result<seq<Candle<V>>, ParseFailure>)
    ensures Prepend([], r) == r
  {
    if r.Ok? {
      assert [] + r.value == r.value;
    }
  }

  lemma PrependTwice<V>(a: seq<Candle<V>>, b: seq<Candle<V>>, r: Result<seq<Candle<V>>, ParseFailure>)
    ensures Prepend(a, Prepend(b, r)) == Prepend(a + b, r)
  {
    if r.Ok? {
      assert a + (b + r.value) == (a + b) + r.value;
    }
  }

  /** Lines 64-77 as the source runs them: the `candles` list is filled by a loop over `timestamp`. */
  method Normalize<V>(p: Payload<V>) returns (r: Result<seq<Candle<V>>, ParseFailure>)
    ensures r == Parse(p)
  {
    var located := Locate(p);
    if located.Err? {
      return Err(located.error);
    }
    var timestamps, quote := located.value.0, located.value.1;
    var candles: seq<Candle<V>> := [];
    var i := 0;
    PrependEmpty(Rows(timestamps, quote, 0));
    while i < |timestamps|
      invariant 0 <= i <= |timestamps|
      invariant Rows(timestamps, quote, 0) == Prepend(candles, Rows(timestamps, quote, i))
    {
      var row := CandleAt(timestamps, quote, i);
      if row.Err? {
        return Err(row.error);
      }
      assert Rows(timestamps, quote, i) == Prepend([row.value], Rows(timestamps, quote, i + 1));
      PrependTwice(candles, [row.value], Rows(timestamps, quote, i + 1));
      candles := candles + [row.value];
      i := i + 1;
    }
    assert candles + [] == candles;
    return Ok(candles);
  }

  /** Every indicator array is present and at least `n` long. */
  predicate Covers<V>(q: Quote<V>, n: nat) {
    && q.open.Some? && |q.open.value| >= n
    && q.high.Some? && |q.high.value| >= n
    && q.low.Some? && |q.low.value| >= n
    && q.close.Some? && |q.close.value| >= n
    && q.volume.Some? && |q.volume.value| >= n
  }

  /** The reference zip: row `k` takes entry `k` of every array, for each index of `timestamps`. */
  function Zip<V>(timestamps: seq<V>, q: Quote<V>): (rows: seq<Candle<V>>)
    requires Covers(q, |timestamps|)
  {
    seq(|timestamps|, k requires 0 <= k < |timestamps| =>
      Candle(timestamps[k], q.open.value[k], q.high.value[k], q.low.value[k], q.close.value[k], q.volume.value[k]))
  }

  /** The rows from `i` on succeed exactly when there are none or every array covers every timestamp. */
  lemma {:induction false} RowsSucceed<V>(timestamps: seq<V>, q: Quote<V>, i: nat)
    requires i <= |timestamps|
    ensures Rows(timestamps, q, i).Ok? <==> i == |timestamps| || Covers(q, |timestamps|)
    decreases |timestamps| - i
  {
    if i < |timestamps| {
      RowsSucceed(timestamps, q, i + 1);
    }
  }

  /** When they succeed, the rows from `i` on are the reference zip from `i` on. */
  lemma {:induction false} RowsAreZip<V>(timestamps: seq<V>, q: Quote<V>, i: nat)
    requires i <= |timestamps| && Covers(q, |timestamps|)
    ensures Rows(timestamps, q, i) == Ok(Zip(timestamps, q)[i..])
    decreases |timestamps| - i
  {
    if i < |timestamps| {
      RowsAreZip(timestamps, q, i + 1);
      var z := Zip(timestamps, q);
      assert CandleAt(timestamps, q, i) == Ok(z[i]);
      assert Rows(timestamps, q, i) == Ok([z[i]] + z[i + 1..]);
      assert z[i..] == [z[i]] + z[i + 1..];
    } else {
      assert Zip(timestamps, q)[i..] == [];
    }
  }

  /** Each array cut down to its first `n` entries. */
  function Truncated<V>(q: Quote<V>, n: nat): Quote<V>
  {
    Quote(Cut(q.open, n), Cut(q.high, n), Cut(q.low, n), Cut(q.close, n), Cut(q.volume, n))
  }

  function Cut<V>(field: Option<seq<V>>, n: nat): Option<seq<V>>
  {
    match field
    case None => None
    case Some(a) => Some(if |a| <= n then a else a[..n])
  }

  /** Indicator entries beyond the last timestamp are never read: cutting them off changes nothing. */
  lemma {:induction false} RowsIgnoreExtra<V>(timestamps: seq<V>, q: Quote<V>, i: nat)
    requires i <= |timestamps|
    ensures Rows(timestamps, q, i) == Rows(timestamps, Truncated(q, |timestamps|), i)
    decreases |timestamps| - i
  {
    if i < |timestamps| {
      RowsIgnoreExtra(timestamps, q, i + 1);
      var n := |timestamps|;
      ItemCut(q.open, "open", i, n);
      ItemCut(q.high, "high", i, n);
      ItemCut(q.low, "low", i, n);
      ItemCut(q.close, "close", i, n);
      ItemCut(q.volume, "volume", i, n);
      assert CandleAt(timestamps, q, i) == CandleAt(timestamps, Truncated(q, n), i);
    }
  }

  /** Reading index `i < n` of an array gives the same as reading it from the array cut to `n`. */
  lemma ItemCut<T>(field: Option<seq<T>>, name: string, i: nat, n: nat)
    requires i < n
    ensures Item(Cut(field, n), name, i) == Item(field, name, i)
  {
  }

  /** The keys and first elements lines 64-66 need are all present. */
  predicate Locatable<V>(p: Payload<V>) {
    && p.chart.Some?
    && p.chart.value.result.Some?
    && |p.chart.value.result.value| > 0
    && p.chart.value.result.value[0].timestamp.Some?
    && p.chart.value.result.value[0].indicators.Some?
    && p.chart.value.result.value[0].indicators.value.quote.Some?
    && |p.chart.value.result.value[0].indicators.value.quote.value| > 0
  }

  function TimestampsOf<V>(p: Payload<V>): seq<V>
    requires Locatable(p)
  {
    p.chart.value.result.value[0].timestamp.value
  }

  function QuoteOf<V>(p: Payload<V>): Quote<V>
    requires Locatable(p)
  {
    p.chart.value.result.value[0].indicators.value.quote.value[0]
  }

  /**
   * A payload normalises exactly when every key on the path is present, both
   * lists are non-empty, and either there are no timestamps or every
   * indicator array is at least as long as the timestamp array; the candles
   * are then the reference zip, one per timestamp.
   */
  lemma ParseSucceeds<V>(p: Payload<V>)
    ensures Parse(p).Ok? <==>
      Locatable(p) && (|TimestampsOf(p)| == 0 || Covers(QuoteOf(p), |TimestampsOf(p)|))
    ensures Parse(p).Ok? ==>
      |Parse(p).value| == |TimestampsOf(p)| &&
      (|TimestampsOf(p)| == 0 || Parse(p).value == Zip(TimestampsOf(p), QuoteOf(p)))
  {
    if Locatable(p) {
      var ts, q := TimestampsOf(p), QuoteOf(p);
      assert Locate(p) == Ok((ts, q));
      RowsSucceed(ts, q, 0);
      if Covers(q, |ts|) {
        RowsAreZip(ts, q, 0);
        assert Zip(ts, q)[0..] == Zip(ts, q);
      }
    }
  }
}

/**
 * The handler `get_minute_data` (lines 17-91): parse the symbols, compute the
 * window once, then for each symbol issue one chart request and record its
 * outcome in the `symbols` map of the response. The network is replaced by
 * the replies the requests receive, one per request, in request order.
 */
module Batch {
  import opened Wrappers
  import opened Text
  import opened Symbols
  import opened Window
  import opened Candles

  /** Line 9: the chart endpoint; the symbol is appended to this path. */
  const ChartUrlPrefix: string := "https://query1.finance.yahoo.com/v8/finance/chart/"

  /** The GET of line 52: its URL and its query parameters `interval` and `range`. */
  datatype Request = Request(url: string, interval: string, range: string)

  /** Lines 46-50. */
  function RequestFor(symbol: string, minutes: int): Request
    requires ValidMinutes(minutes)
  {
    Request(ChartUrlPrefix + symbol, "1m", RangeParam(minutes))
  }

  /** What `response.json()` of line 61 makes of the body. */
  datatype Body<V> = NotJson | Json(payload: Payload<V>)

  /** What the GET of line 52 gives back: an exception from the client, or a status and a body. */
  datatype Reply<V> = TransportFailure | Http(status: nat, body: Body<V>)

  /** One entry of the `symbols` map: `{status: "ok", count, candles}` or `{status: "error", message}`. */
  datatype SymbolResult<V> = SymbolOk(count: nat, candles: seq<Candle<V>>) | SymbolError(message: string)

  /** The exceptions that escape the handler, since lines 52 and 61 lie outside the `try`. */
  datatype Escape = TransportError | InvalidJson

  /** What one loop iteration does: record an entry, or let an exception escape. */
  datatype Step<V> = Record(entry: SymbolResult<V>) | Raise(cause: Escape)

  const HttpPrefix: string := "HTTP "
  const HttpSuffix: string := " from Yahoo Finance"
  const ParsePrefix: string := "Failed to parse Yahoo response: "

  /** Line 57. */
  function HttpErrorMessage(status: nat): string
  {
    HttpPrefix + Decimal(status) + HttpSuffix
  }

  /** Reads the status code back out of a message shaped like line 57's. */
  function StatusOfMessage(message: string): Option<nat>
  {
    if |message| >= |HttpPrefix| + |HttpSuffix|
      && message[..|HttpPrefix|] == HttpPrefix
      && message[|message| - |HttpSuffix|..] == HttpSuffix
      && AllDigits(message[|HttpPrefix|..|message| - |HttpSuffix|])
    then Some(DecimalValue(message[|HttpPrefix|..|message| - |HttpSuffix|]))
    else None
  }

  /** Round trip: the error entry of a non-200 reply carries exactly its status code. */
  lemma HttpErrorMessageRoundTrip(status: nat)
    ensures StatusOfMessage(HttpErrorMessage(status)) == Some(status)
  {
    var d := Decimal(status);
    var m := HttpErrorMessage(status);
    assert m[..|HttpPrefix|] == HttpPrefix;
    assert m[|m| - |HttpSuffix|..] == HttpSuffix;
    assert m[|HttpPrefix|..|m| - |HttpSuffix|] == d;
    DecimalRoundTrip(status);
  }

  /** `str(e)` for the exceptions of lines 64-76: a `KeyError` shows its key in quotes. */
  function Describe(f: ParseFailure): string
  {
    match f
    case KeyMissing(key) => "'" + key + "'"
    case IndexOutOfRange => "list index out of range"
  }

  /** Line 88. */
  function ParseErrorMessage(f: ParseFailure): string
  {
    ParsePrefix + Describe(f)
  }

  /** Lines 79-89: the entry for a decoded 200 payload. */
  function EntryOf<V>(parsed: Result<seq<Candle<V>>, ParseFailure>): SymbolResult<V>
  {
    match parsed
    case Ok(candles) => SymbolOk(|candles|, candles)
    case Err(f) => SymbolError(ParseErrorMessage(f))
  }

  /** Lines 52-89 for one symbol, given the reply its request receives. */
  function Outcome<V>(reply: Reply<V>): Step<V>
  {
    match reply
    case TransportFailure => Raise(TransportError)
    case Http(status, body) =>
      if status != 200 then Record(SymbolError(HttpErrorMessage(status)))
      else
        match body
        case NotJson => Raise(InvalidJson)
        case Json(p) => Record(EntryOf(Parse(p)))
  }

  /** The state of the loop of line 45: still filling the map, or left by an exception at index `at`. */
  datatype Progress<V> = Running(results: map<string, SymbolResult<V>>) | Stopped(cause: Escape, at: nat)

  /** The loop of lines 45-89 over the first `|symbols|` symbols. */
  function Fold<V>(symbols: seq<string>, replies: seq<Reply<V>>): Progress<V>
    requires |symbols| == |replies|
    decreases |symbols|
  {
    if symbols == [] then Running(map[])
    else
      var n := |symbols| - 1;
      match Fold(symbols[..n], replies[..n])
      case Stopped(cause, at) => Stopped(cause, at)
      case Running(results) =>
        match Outcome(replies[n])
        case Raise(cause) => Stopped(cause, n)
        case Record(entry) => Running(results[symbols[n] := entry])
  }

  /** What the handler produces: a 400 error, an exception, or the JSON response. */
  datatype Response<V> =
    | BadRequest(code: nat, detail: string)
    | Unhandled(cause: Escape)
    | Success(echo: Echo, symbols: map<string, SymbolResult<V>>)

  /** Lines 28-91. */
  function Handler<V>(symbols: string, minutes: int, now: int, replies: seq<Reply<V>>): Response<V>
    requires ValidMinutes(minutes)
    requires |replies| == |ParseSymbols(symbols)|
  {
    var list := ParseSymbols(symbols);
    if list == [] then BadRequest(400, "No valid symbols provided.")
    else
      match Fold(list, replies)
      case Stopped(cause, _) => Unhandled(cause)
      case Running(results) => Success(MakeEcho(now, minutes), results)
  }

  /** How many requests the loop issues before it ends or an exception leaves it. */
  function Issued<V>(symbols: seq<string>, replies: seq<Reply<V>>): (n: nat)
    requires |symbols| == |replies|
    ensures n <= |symbols|
  {
    FoldStopped(symbols, replies);
    match Fold(symbols, replies)
    case Stopped(_, at) => at + 1
    case Running(_) => |symbols|
  }

  /** A stopped loop stops at its first raising reply, after recording every earlier one. */
  lemma {:induction false} FoldStopped<V>(symbols: seq<string>, replies: seq<Reply<V>>)
    requires |symbols| == |replies|
    ensures Fold(symbols, replies).Stopped? ==>
      var at := Fold(symbols, replies).at;
      && at < |symbols|
      && Outcome(replies[at]) == Raise(Fold(symbols, replies).cause)
      && forall j :: 0 <= j < at ==> Outcome(replies[j]).Record?
    decreases |symbols|
  {
    if symbols != [] {
      var n := |symbols| - 1;
      FoldStopped(symbols[..n], replies[..n]);
      match Fold(symbols[..n], replies[..n])
      case Stopped(cause, at) =>
        assert forall j :: 0 <= j < at ==> replies[..n][j] == replies[j];
      case Running(_) =>
        FoldRunning(symbols[..n], replies[..n]);
        assert forall j :: 0 <= j < n ==> replies[..n][j] == replies[j];
    }
  }

  /** The loop runs to the end exactly when no reply raises. */
  lemma {:induction false} FoldRunning<V>(symbols: seq<string>, replies: seq<Reply<V>>)
    requires |symbols| == |replies|
    ensures Fold(symbols, replies).Running? <==> forall j :: 0 <= j < |replies| ==> Outcome(replies[j]).Record?
    decreases |symbols|
  {
    if symbols != [] {
      var n := |symbols| - 1;
      FoldRunning(symbols[..n], replies[..n]);
      assert forall j :: 0 <= j < n ==> replies[..n][j] == replies[j];
    }
  }

  /** Once an exception has left the loop, later replies do not matter. */
  lemma {:induction false} FoldStaysStopped<V>(symbols: seq<string>, replies: seq<Reply<V>>, i: nat)
    requires |symbols| == |replies| && i <= |symbols|
    requires Fold(symbols[..i], replies[..i]).Stopped?
    ensures Fold(symbols, replies) == Fold(symbols[..i], replies[..i])
    decreases |symbols| - i
  {
    if i < |symbols| {
      var n := |symbols| - 1;
      assert symbols[..n][..i] == symbols[..i] && replies[..n][..i] == replies[..i];
      FoldStaysStopped(symbols[..n], replies[..n], i);
    } else {
      assert symbols[..i] == symbols && replies[..i] == replies;
    }
  }

  /** One more iteration of the loop extends the fold by one reply. */
  lemma FoldStep<V>(symbols: seq<string>, replies: seq<Reply<V>>, i: nat, results: map<string, SymbolResult<V>>)
    requires |symbols| == |replies| && i < |symbols|
    requires Fold(symbols[..i], replies[..i]) == Running(results)
    ensures Fold(symbols[..i + 1], replies[..i + 1]) ==
      match Outcome(replies[i])
      case Raise(cause) => Stopped(cause, i)
      case Record(entry) => Running(results[symbols[i] := entry])
  {
    assert symbols[..i + 1][..i] == symbols[..i] && replies[..i + 1][..i] == replies[..i];
  }

  /** An exception at iteration `i` is the end of the whole loop, after `i + 1` requests. */
  lemma StopsAt<V>(symbols: seq<string>, replies: seq<Reply<V>>, i: nat, cause: Escape)
    requires |symbols| == |replies| && i < |symbols|
    requires Fold(symbols[..i + 1], replies[..i + 1]) == Stopped(cause, i)
    ensures Fold(symbols, replies) == Stopped(cause, i)
    ensures Issued(symbols, replies) == i + 1
  {
    FoldStaysStopped(symbols, replies, i + 1);
  }

  /** A loop that reaches the end has issued one request per symbol. */
  lemma EndsAt<V>(symbols: seq<string>, replies: seq<Reply<V>>, results: map<string, SymbolResult<V>>)
    requires |symbols| == |replies|
    requires Fold(symbols[..|symbols|], replies[..|replies|]) == Running(results)
    ensures Fold(symbols, replies) == Running(results)
    ensures Issued(symbols, replies) == |symbols|
  {
    assert symbols[..|symbols|] == symbols && replies[..|replies|] == replies;
  }

  /** Lines 52-89: the request for one symbol and what its reply turns into. */
  method FetchOne<V>(reply: Reply<V>) returns (step: Step<V>)
    ensures step == Outcome(reply)
  {
    match reply
    case TransportFailure =>
      step := Raise(TransportError);
    case Http(status, body) =>
      if status != 200 {
        step := Record(SymbolError(HttpErrorMessage(status)));
      } else {
        match body
        case NotJson =>
          step := Raise(InvalidJson);
        case Json(p) =>
          var parsed := Normalize(p);
          match parsed
          case Ok(candles) =>
            step := Record(SymbolOk(|candles|, candles));
          case Err(f) =>
            step := Record(SymbolError(ParseErrorMessage(f)));
      }
  }

  /**
   * Lines 44-89: the loop over the parsed symbols, filling the results map in
   * place; `requests` are the GETs issued, in order.
   */
  method RunBatch<V>(list: seq<string>, minutes: int, replies: seq<Reply<V>>)
    returns (progress: Progress<V>, requests: seq<Request>)
    requires ValidMinutes(minutes)
    requires |replies| == |list|
    ensures progress == Fold(list, replies)
    ensures |requests| == Issued(list, replies)
    ensures forall k :: 0 <= k < |requests| ==> requests[k] == RequestFor(list[k], minutes)
  {
    var results: map<string, SymbolResult<V>> := map[];
    requests := [];
    var i := 0;
    while i < |list|
      invariant 0 <= i <= |list|
      invariant Fold(list[..i], replies[..i]) == Running(results)
      invariant |requests| == i
      invariant forall k :: 0 <= k < i ==> requests[k] == RequestFor(list[k], minutes)
    {
      var sym := list[i];
      requests := requests + [RequestFor(sym, minutes)];
      var step := FetchOne(replies[i]);
      FoldStep(list, replies, i, results);
      if step.Raise? {
        StopsAt(list, replies, i, step.cause);
        return Stopped(step.cause, i), requests;
      }
      results := results[sym := step.entry];
      i := i + 1;
    }
    EndsAt(list, replies, results);
    return Running(results), requests;
  }

  /** Lines 17-91: the whole handler, given the clock reading and the replies its requests receive. */
  method GetMinuteData<V>(symbols: string, minutes: int, now: int, replies: seq<Reply<V>>)
    returns (response: Response<V>, requests: seq<Request>)
    requires ValidMinutes(minutes)
    requires |replies| == |ParseSymbols(symbols)|
    ensures response == Handler(symbols, minutes, now, replies)
    ensures |requests| == Issued(ParseSymbols(symbols), replies)
    ensures forall k :: 0 <= k < |requests| ==> requests[k] == RequestFor(ParseSymbols(symbols)[k], minutes)
  {
    var list := ParseSymbols(symbols);
    if list == [] {
      return BadRequest(400, "No valid symbols provided."), [];
    }
    var echo := MakeEcho(now, minutes);
    var progress;
    progress, requests := RunBatch(list, minutes, replies);
    match progress
    case Stopped(cause, _) =>
      response := Unhandled(cause);
    case Running(results) =>
      response := Success(echo, results);
  }

  /** Lines 52 and 61: a reply escapes the handler exactly on a client failure or an undecodable 200 body. */
  lemma OutcomeRaises<V>(reply: Reply<V>)
    ensures Outcome(reply).Raise? <==>
      reply.TransportFailure? || (reply.status == 200 && reply.body.NotJson?)
  {
  }

  /**
   * Lines 54-59: a non-200 reply becomes an error entry whose message carries
   * the status code, whatever the body holds.
   */
  lemma OutcomeNotOk<V>(status: nat, body: Body<V>, other: Body<V>)
    requires status != 200
    ensures Outcome(Http(status, body)).Record?
    ensures Outcome(Http(status, body)).entry.SymbolError?
    ensures StatusOfMessage(Outcome(Http(status, body)).entry.message) == Some(status)
    ensures Outcome(Http(status, body)) == Outcome(Http(status, other))
  {
    HttpErrorMessageRoundTrip(status);
  }

  /**
   * Lines 63-89: a decoded 200 payload gives an "ok" entry exactly when it
   * normalises, with one candle per timestamp and `count` their number;
   * otherwise an error entry with the "Failed to parse" message.
   */
  lemma OutcomeOk<V>(p: Payload<V>)
    ensures Outcome(Http(200, Json(p))).Record?
    ensures Outcome(Http(200, Json(p))).entry.SymbolOk? <==>
      Locatable(p) && (|TimestampsOf(p)| == 0 || Covers(QuoteOf(p), |TimestampsOf(p)|))
    ensures Outcome(Http(200, Json(p))).entry.SymbolOk? ==>
      var e := Outcome(Http(200, Json(p))).entry;
      e.count == |e.candles| == |TimestampsOf(p)| &&
      (|TimestampsOf(p)| == 0 || e.candles == Zip(TimestampsOf(p), QuoteOf(p)))
    ensures Outcome(Http(200, Json(p))).entry.SymbolError? ==>
      var m := Outcome(Http(200, Json(p))).entry.message;
      |m| >= |ParsePrefix| && m[..|ParsePrefix|] == ParsePrefix
  {
    ParseSucceeds(p);
  }

  /** The set of symbols of a list. */
  function SymbolSet(symbols: seq<string>): set<string>
  {
    set k | 0 <= k < |symbols| :: symbols[k]
  }

  /** Line 45: a finished loop has one entry per distinct symbol, and no other. */
  lemma {:induction false} FoldKeys<V>(symbols: seq<string>, replies: seq<Reply<V>>)
    requires |symbols| == |replies|
    ensures Fold(symbols, replies).Running? ==> Fold(symbols, replies).results.Keys == SymbolSet(symbols)
    decreases |symbols|
  {
    if symbols != [] {
      var n := |symbols| - 1;
      FoldKeys(symbols[..n], replies[..n]);
      assert SymbolSet(symbols) == SymbolSet(symbols[..n]) + {symbols[n]} by {
        assert forall k :: 0 <= k < n ==> symbols[..n][k] == symbols[k];
      }
    }
  }

  /** No later position of the list holds the symbol at position `j`. */
  predicate LastAt(symbols: seq<string>, j: nat)
    requires j < |symbols|
  {
    forall k :: j < k < |symbols| ==> symbols[k] != symbols[j]
  }

  /** Lines 55, 79, 86: a repeated symbol keeps the entry of its last occurrence. */
  lemma {:induction false} FoldLastWins<V>(symbols: seq<string>, replies: seq<Reply<V>>, j: nat)
    requires |symbols| == |replies| && j < |symbols| && LastAt(symbols, j)
    requires Fold(symbols, replies).Running?
    ensures symbols[j] in Fold(symbols, replies).results
    ensures Outcome(replies[j]).Record?
    ensures Fold(symbols, replies).results[symbols[j]] == Outcome(replies[j]).entry
    decreases |symbols|
  {
    var n := |symbols| - 1;
    if j < n {
      assert LastAt(symbols[..n], j) by {
        assert forall k :: j < k < n ==> symbols[..n][k] == symbols[k];
      }
      FoldLastWins(symbols[..n], replies[..n], j);
      assert symbols[..n][j] == symbols[j] && replies[..n][j] == replies[j];
    }
  }

  /**
   * Isolation: the entry of a symbol depends only on the replies to that
   * symbol's own requests; whatever the other replies are, it is the same.
   */
  lemma {:induction false} FoldIsolation<V>(symbols: seq<string>, replies: seq<Reply<V>>, other: seq<Reply<V>>, key: string)
    requires |symbols| == |replies| == |other|
    requires forall j :: 0 <= j < |symbols| && symbols[j] == key ==> replies[j] == other[j]
    requires Fold(symbols, replies).Running? && Fold(symbols, other).Running?
    ensures key in Fold(symbols, replies).results <==> key in Fold(symbols, other).results
    ensures key in Fold(symbols, replies).results ==>
      Fold(symbols, replies).results[key] == Fold(symbols, other).results[key]
    decreases |symbols|
  {
    if symbols != [] {
      var n := |symbols| - 1;
      assert forall j :: 0 <= j < n ==> symbols[..n][j] == symbols[j] && replies[..n][j] == replies[j] && other[..n][j] == other[j];
      FoldIsolation(symbols[..n], replies[..n], other[..n], key);
    }
  }

  /** Lines 28-30: the handler answers 400 exactly when the input holds only commas and whitespace. */
  lemma HandlerBadRequest<V>(symbols: string, minutes: int, now: int, replies: seq<Reply<V>>)
    requires ValidMinutes(minutes)
    requires |replies| == |ParseSymbols(symbols)|
    ensures Handler(symbols, minutes, now, replies).BadRequest? <==>
      forall k :: 0 <= k < |symbols| ==> symbols[k] == ',' || IsSpace(symbols[k])
    ensures Handler(symbols, minutes, now, replies).BadRequest? ==>
      Handler(symbols, minutes, now, replies) == BadRequest(400, "No valid symbols provided.")
  {
    ParseSymbolsEmpty(symbols);
  }

  /**
   * Lines 36-91: the handler returns a response exactly when some symbol
   * parses and no reply escapes; the response then echoes the window and has
   * one entry per distinct parsed symbol.
   */
  lemma HandlerSucceeds<V>(symbols: string, minutes: int, now: int, replies: seq<Reply<V>>)
    requires ValidMinutes(minutes)
    requires |replies| == |ParseSymbols(symbols)|
    ensures Handler(symbols, minutes, now, replies).Success? <==>
      ParseSymbols(symbols) != [] && forall j :: 0 <= j < |replies| ==> Outcome(replies[j]).Record?
    ensures Handler(symbols, minutes, now, replies).Success? ==>
      && Handler(symbols, minutes, now, replies).echo == MakeEcho(now, minutes)
      && Handler(symbols, minutes, now, replies).symbols.Keys == SymbolSet(ParseSymbols(symbols))
  {
    FoldRunning(ParseSymbols(symbols), replies);
    FoldKeys(ParseSymbols(symbols), replies);
  }

  /**
   * A batch of a symbol that normalises and one whose reply is an error
   * status: both entries are present, the first "ok", the second "error".
   */
  lemma IsolationExample<V>(p: Payload<V>, status: nat)
    requires Parse(p).Ok? && status != 200
    ensures Fold(["AAPL", "BADSYM"], [Http(200, Json(p)), Http(status, NotJson)]) ==
      Running(map[
        "AAPL" := SymbolOk(|Parse(p).value|, Parse(p).value),
        "BADSYM" := SymbolError(HttpErrorMessage(status))])
  {
    var s := ["AAPL", "BADSYM"];
    var r: seq<Reply<V>> := [Http(200, Json(p)), Http(status, NotJson)];
    assert s[..1] == ["AAPL"] && r[..1] == [Http(200, Json(p))];
    assert s[..1][..0] == [] && r[..1][..0] == [];
  }
}

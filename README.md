# Yahoo Finance minute-data handler, modelled in Dafny

This project models the route handler `get_minute_data` of
`finnhub_integration.py`. Despite the file name, the handler queries the
Yahoo Finance chart endpoint. For a comma-separated list of ticker symbols
and a lookback of `minutes` (1 to 4320), it:

1. parses the symbol list: split on `,`, strip, upper-case, drop blanks, keep
   order and duplicates. It answers 400 when nothing is left.
2. computes the window that is echoed back (`from = now - minutes*60`,
   `to = now`, `resolution = "1"`), once per request.
3. issues one GET per parsed symbol, with `interval=1m` and `range`
   `"{minutes}m"` up to 1440 minutes, `"7d"` beyond.
4. turns each reply into an entry of the `symbols` map. A non-200 status gives
   an error entry that carries the code. A 200 payload is zipped from its
   parallel arrays into candles. A payload that raises while being read gives
   a "Failed to parse" error entry. A repeated symbol overwrites its earlier
   entry.

The modules follow these steps:

- `Text` models the Python string built-ins used: `split`, `strip`, `upper`
  and decimal rendering.
- `Symbols` models step 1.
- `Window` models steps 2 and 3's `range`.
- `Candles` models the normalisation of step 4.
- `Batch` models the loop and the handler as a whole.
- `Wrappers` holds `Option` and `Result`.

The network is replaced by the sequence of replies the GETs receive, one per
request, in request order. The clock is a parameter `now`. Timestamps and
indicator values are of a type parameter `V`, because the handler only copies
them.

The two loops and the handler are methods proved against specification
functions:

- `Candles.Normalize` runs the `enumerate(timestamps)` loop and is proved equal
  to `Candles.Parse`.
- `Batch.RunBatch` fills the results map in a loop and is proved equal to
  `Batch.Fold`.
- `Batch.GetMinuteData` is the whole handler and is proved equal to
  `Batch.Handler`.

The lemmas state the properties of these functions.

The code does not turn every failure into an entry of its own, and it reads
only what it needs of a payload:

- A transport failure of the GET (line 52), or a 200 body that is not JSON
  (line 61), raises outside the `try`. The model makes it an escaping
  exception (`Batch.Response.Unhandled`), not an error entry, so one such
  symbol ends the whole request.
- Indicator arrays longer than `timestamp` are accepted, and their extra
  entries are ignored. Missing indicator arrays are accepted when `timestamp`
  is empty, because they are only read inside the loop.
- The code does not truncate to `minutes` candles, and does not accept
  row-oriented payloads. It also does no numeric coercion, no credential
  check and no retries.

## Model

| member | source | states |
|---|---|---|
| Text.UpperChar | finnhub_integration.py:28 | a lower-case ASCII letter becomes the upper-case letter at the same alphabet position (`'a'` to `'A'` and so on); every other character is left unchanged; the result is never a lower-case letter and is whitespace exactly when the input is |
| Text.Upper | finnhub_integration.py:28 | `upper()` keeps the length and maps every position through UpperChar |
| Text.TrimLeftSpec | finnhub_integration.py:28 | left trimming gives a suffix that does not start with whitespace, and only whitespace is cut |
| Text.TrimRightSpec | finnhub_integration.py:28 | right trimming gives a prefix that does not end with whitespace, and only whitespace is cut |
| Text.StripBounds | finnhub_integration.py:28 | `strip()` is a slice `s[lo..hi]`: everything cut is whitespace, and the slice has no whitespace at either end |
| Text.StripEmpty | finnhub_integration.py:28 | `strip()` is empty exactly when the input is all whitespace |
| Text.StripUnchanged | finnhub_integration.py:28 | a string without whitespace at its ends is its own strip |
| Text.StripPadded | finnhub_integration.py:28 | one whitespace character on each side of a stripped string is removed |
| Text.UpperUnchanged | finnhub_integration.py:28 | a string without lower-case letters is its own upper-case form |
| Text.Split | finnhub_integration.py:28 | `split(",")` always gives at least one piece, and no piece holds the separator |
| Text.SplitConcat | finnhub_integration.py:28 | splitting `a + "," + b` gives the pieces of `a` followed by the pieces of `b` |
| Text.SplitSingle | finnhub_integration.py:28 | a string without the separator splits into itself alone |
| Text.JoinSplit | finnhub_integration.py:28 | round trip: joining the pieces of a split gives back the input |
| Text.SplitJoin | finnhub_integration.py:28 | round trip: splitting a join of separator-free pieces gives back the pieces |
| Text.Decimal | finnhub_integration.py:49 | the rendering of a number is a non-empty digit string without a leading zero (except for 0) |
| Text.DecimalRoundTrip | finnhub_integration.py:49 | round trip: reading a rendered number back gives the number |
| Text.DecimalInjective | finnhub_integration.py:57 | two numbers render the same exactly when they are equal |
| Symbols.CleanPiece | finnhub_integration.py:28 | a non-blank comma-free piece, stripped and upper-cased, is a well-formed symbol |
| Symbols.CleanWellFormed | finnhub_integration.py:28 | every symbol cleaned from comma-free pieces is well formed |
| Symbols.ParseSymbolsWellFormed | finnhub_integration.py:28 | every parsed symbol is non-empty, has no whitespace at either end, has no lower-case letter and no comma |
| Symbols.CleanConcat | finnhub_integration.py:28 | cleaning two lists of pieces one after the other gives the two results concatenated |
| Symbols.ParseSymbolsConcat | finnhub_integration.py:28 | the symbols of `a + "," + b` are those of `a` followed by those of `b`, so input order is kept |
| Symbols.ParseSymbolsKeepsDuplicates | finnhub_integration.py:28 | a list given twice parses to its symbols twice: duplicates are not removed |
| Symbols.ParseSymbolsCons | finnhub_integration.py:28 | a leading comma or whitespace character never changes the parsed list; any other leading character makes it non-empty |
| Symbols.ParseSymbolsEmpty | finnhub_integration.py:28-30 | the parsed list is empty exactly when the input is nothing but commas and whitespace (empty input included) |
| Symbols.ParseSymbolsSingle | finnhub_integration.py:28 | a comma-free, non-blank piece parses to the single symbol `upper(strip(piece))` |
| Symbols.ParseSymbolsThree | finnhub_integration.py:28 | an input with two commas parses to the symbols of its three parts, concatenated in input order |
| Symbols.ParseSymbolsThreePieces | finnhub_integration.py:28 | three comma-free, non-blank pieces joined by commas parse to their three stripped, upper-cased forms, in order |
| Symbols.ParseSymbolsExample | finnhub_integration.py:28 | `"aapl, msft ,MSFT"` parses to `["AAPL", "MSFT", "MSFT"]`: case folded, padding removed, order and the duplicate kept |
| Symbols.CleanUnchanged | finnhub_integration.py:28 | a list of stripped upper-case tokens is cleaned to itself |
| Symbols.ParseJoinRoundTrip | finnhub_integration.py:28 | round trip: a comma-joined list of well-formed symbols parses back to exactly that list |
| Window.MakeEcho | finnhub_integration.py:32-42 | the echo has `to = now`, `from < to`, a span of exactly `minutes*60` seconds (at most three days), `requested_minutes = minutes` and `resolution = "1"` |
| Window.WindowsNest | finnhub_integration.py:32-34 | a longer lookback gives a window that starts no later and ends at the same `now` |
| Window.RangeSevenDays | finnhub_integration.py:49 | the `range` parameter is `"7d"` exactly when `minutes > 1440` |
| Window.RangeRoundTrip | finnhub_integration.py:49 | up to 1440 minutes the `range` is `"<minutes>m"` and reads back to `minutes`; beyond, it holds no minute count |
| Window.RangeSameBucket | finnhub_integration.py:49 | two lookbacks share a `range` value exactly when they are equal or both exceed 1440 |
| Window.RangeMonotone | finnhub_integration.py:49 | once a lookback falls in the `"7d"` bucket, every longer lookback does too |
| Candles.Normalize | finnhub_integration.py:63-77 | the loop that appends one candle per timestamp returns exactly `Parse(p)`: the zipped candles, or the first exception the reads raise |
| Candles.RowsSucceed | finnhub_integration.py:69-77 | the rows succeed exactly when there are no timestamps or every indicator array is present and at least as long as `timestamp` |
| Candles.RowsAreZip | finnhub_integration.py:69-77 | when the arrays cover the timestamps, candle `k` holds `timestamp[k]`, `open[k]`, `high[k]`, `low[k]`, `close[k]` and `volume[k]`, in provider order |
| Candles.RowsIgnoreExtra | finnhub_integration.py:69-77 | indicator entries beyond the length of `timestamp` are never read: cutting them off changes neither the candles nor the failure |
| Candles.ParseSucceeds | finnhub_integration.py:63-77 | a payload normalises exactly when `chart`, `result`, `result[0]`, `timestamp`, `indicators`, `quote` and `quote[0]` exist and the arrays cover the timestamps (or there are none); on success there is one candle per timestamp, equal to the reference zip |
| Batch.HttpErrorMessageRoundTrip | finnhub_integration.py:57 | the message "HTTP <code> from Yahoo Finance" reads back to exactly its status code |
| Batch.Issued | finnhub_integration.py:45-52 | the loop never issues more requests than there are parsed symbols |
| Batch.FoldStopped | finnhub_integration.py:45-89 | when an exception leaves the loop, it leaves at the first escaping reply, after every earlier reply was recorded |
| Batch.FoldRunning | finnhub_integration.py:45-89 | the loop runs to the end exactly when no reply escapes |
| Batch.FoldStaysStopped | finnhub_integration.py:52 | once an exception has left the loop, the later replies do not matter |
| Batch.StopsAt | finnhub_integration.py:52 | an exception at iteration `i` ends the whole loop, after exactly `i + 1` requests |
| Batch.FoldStep | finnhub_integration.py:45-89 | one more iteration either stops at its reply or stores that reply's entry under its symbol, overwriting any earlier entry |
| Batch.FetchOne | finnhub_integration.py:52-89 | the per-symbol code returns exactly `Outcome(reply)`: an error entry for a non-200 status, the normalised entry for a 200 payload, an escaping exception otherwise |
| Batch.RunBatch | finnhub_integration.py:44-89 | the loop that updates the results map in place returns exactly `Fold(list, replies)`; its `requests` are one GET per symbol reached, in order, with `interval=1m` and the window's `range` |
| Batch.GetMinuteData | finnhub_integration.py:17-91 | the handler returns exactly `Handler(...)`: 400 on an empty list, an escaping exception, or the echo and the results map; it issues the requests `RunBatch` issues |
| Batch.OutcomeRaises | finnhub_integration.py:52-61 | a reply escapes the handler exactly on a transport failure or an undecodable 200 body |
| Batch.OutcomeNotOk | finnhub_integration.py:54-59 | a non-200 reply gives an error entry whose message carries exactly that status code, whatever the body holds, so no normalisation is attempted |
| Batch.OutcomeOk | finnhub_integration.py:63-89 | a decoded 200 payload gives an "ok" entry exactly when it normalises, with `count = len(candles) = len(timestamp)` and the zipped candles; otherwise an error entry whose message starts with "Failed to parse Yahoo response: " |
| Batch.FoldKeys | finnhub_integration.py:45-89 | after the loop, the keys of the results map are exactly the set of parsed symbols |
| Batch.FoldLastWins | finnhub_integration.py:55-86 | a repeated symbol holds the entry of its last occurrence |
| Batch.FoldIsolation | finnhub_integration.py:45-89 | a symbol's entry depends only on the replies to that symbol's own requests, so a failure for another symbol never changes it |
| Batch.HandlerBadRequest | finnhub_integration.py:28-30 | the handler answers 400 "No valid symbols provided." exactly when the input is only commas and whitespace |
| Batch.HandlerSucceeds | finnhub_integration.py:36-91 | the handler returns a response exactly when some symbol parses and no reply escapes; the response echoes the window and has one entry per distinct parsed symbol |
| Batch.IsolationExample | finnhub_integration.py:45-89 | in a batch of "AAPL" (a payload that normalises) and "BADSYM" (an error status), AAPL gets its "ok" entry and BADSYM its error entry |

## Left out

- The FastAPI application, the route declarations, the health endpoint (lines 12-14) and the `Query` metadata are framework plumbing. Only the bound 1 <= `minutes` <= 4320 of line 20 is kept, as a precondition, because FastAPI rejects other values before the handler runs.
- `JSONResponse` serialisation (line 91) is left out, including the key order of the `symbols` object. That order is the first-insertion order of the symbols; the model's `map` has none.
- The `httpx.AsyncClient`, its 10-second timeout, `async`/`await` and the GET itself (lines 44, 52) are network I/O. Each GET is replaced by the reply it receives, given as input in request order. A transport failure or timeout is the reply `TransportFailure`.
- The URL is modelled as plain concatenation of line 9's prefix and the symbol. The URL encoding the HTTP client may apply is not modelled.
- `response.json()` (line 61) is a library call. The body is either already-structured data or `NotJson`.
- `time.time()` (line 32) is clock I/O; `now` is a parameter.
- The unused `numpy` import is left out. Price values are opaque and only copied, so no floating point is modelled.
- Candles.Payload: a `None` field stands for an absent key, which raises a `KeyError`. JSON `null`, or a value of the wrong JSON kind where a list or object is expected, is not modelled. Examples are a string that Python would iterate or index, or a `null` that raises a `TypeError`. The model therefore cannot produce the `TypeError` message text.
- Text.UpperChar: models `str.upper()` for the ASCII letters only. Python's full Unicode case mapping is not modelled; for example, `"ß".upper()` is `"SS"`.
- Batch.Reply: status codes are non-negative integers. The rendering of a negative status is not modelled.

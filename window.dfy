/**
 * The request window (lines 32-42) and the provider's `range` parameter
 * (line 49), computed once per request from the clock reading `now`.
 */
module Window {
  import opened Wrappers
  import opened Text

  /** Line 20: the route accepts `minutes` between 1 and 4320 (three days). */
  const MaxMinutes: int := 4320

  /** Line 49: the longest lookback still requested as a minute count. */
  const MaxMinuteRange: int := 1440

  predicate ValidMinutes(minutes: int) {
    1 <= minutes <= MaxMinutes
  }

  /** The request echo at the head of the response: `requested_minutes`, `from`, `to`, `resolution`. */
  datatype Echo = Echo(requestedMinutes: int, from: int, to: int, resolution: string)

  /** Lines 32-42: the window ends at `now` and reaches `minutes` minutes back. */
  function MakeEcho(now: int, minutes: int): (e: Echo)
    requires ValidMinutes(minutes)
    ensures e.to == now && e.from < e.to
    ensures e.to - e.from <= MaxMinutes * 60
    ensures e.to - e.from == minutes * 60 && e.requestedMinutes == minutes
    ensures e.resolution == "1"
  {
    var start := now - minutes * 60;
    Echo(minutes, start, now, "1")
  }

  /** A longer lookback gives a window that contains the shorter one. */
  lemma WindowsNest(now: int, shorter: int, longer: int)
    requires ValidMinutes(shorter) && ValidMinutes(longer) && shorter <= longer
    ensures MakeEcho(now, longer).from <= MakeEcho(now, shorter).from
    ensures MakeEcho(now, longer).to == MakeEcho(now, shorter).to
  {
  }

  /** Line 49: `f"{minutes}m"` up to one day, the fixed "7d" beyond. */
  function RangeParam(minutes: int): string
    requires ValidMinutes(minutes)
  {
    if minutes <= MaxMinuteRange then Decimal(minutes) + "m" else "7d"
  }

  /** Reads a minute count back out of a `range` value of the form "<digits>m". */
  function MinutesOfRange(range: string): Option<nat>
  {
    if |range| >= 2 && range[|range| - 1] == 'm' && AllDigits(range[..|range| - 1])
    then Some(DecimalValue(range[..|range| - 1]))
    else None
  }

  /** The "7d" bucket is chosen exactly for lookbacks over one day. */
  lemma RangeSevenDays(minutes: int)
    requires ValidMinutes(minutes)
    ensures RangeParam(minutes) == "7d" <==> minutes > MaxMinuteRange
  {
    if minutes <= MaxMinuteRange {
      var r := Decimal(minutes) + "m";
      assert r[|r| - 1] == 'm' != "7d"[1];
    }
  }

  /** Round trip: up to one day the `range` value carries the lookback itself; beyond, it does not. */
  lemma RangeRoundTrip(minutes: int)
    requires ValidMinutes(minutes)
    ensures minutes <= MaxMinuteRange ==> MinutesOfRange(RangeParam(minutes)) == Some(minutes)
    ensures minutes > MaxMinuteRange ==> MinutesOfRange(RangeParam(minutes)) == None
  {
    if minutes <= MaxMinuteRange {
      var d := Decimal(minutes);
      var r := d + "m";
      assert r[..|r| - 1] == d;
      DecimalRoundTrip(minutes);
    } else {
      assert !IsDigit("7d"[0]) || "7d"[1] != 'm';
    }
  }

  /**
   * Bucket selection: two lookbacks share a `range` value exactly when they
   * are equal or both lie in the "7d" bucket.
   */
  lemma RangeSameBucket(m1: int, m2: int)
    requires ValidMinutes(m1) && ValidMinutes(m2)
    ensures RangeParam(m1) == RangeParam(m2) <==> m1 == m2 || (m1 > MaxMinuteRange && m2 > MaxMinuteRange)
  {
    RangeRoundTrip(m1);
    RangeRoundTrip(m2);
  }

  /** Monotonicity: once a lookback is in the "7d" bucket, every longer one is too. */
  lemma RangeMonotone(m1: int, m2: int)
    requires ValidMinutes(m1) && ValidMinutes(m2) && m1 <= m2
    ensures RangeParam(m1) == "7d" ==> RangeParam(m2) == "7d"
    ensures RangeParam(m2) != "7d" ==> RangeParam(m1) != "7d"
  {
    RangeSevenDays(m1);
    RangeSevenDays(m2);
  }
}

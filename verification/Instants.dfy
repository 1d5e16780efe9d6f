/** Instants as nanoseconds since the Unix epoch, and the temporal rules shared by builders and readers. */
module Instants {
  import opened Wrappers

  const MICRO: int := 1_000
  const SECOND: int := 1_000_000_000
  const DAY: int := 86_400 * SECOND

  /** Go's zero time, 0001-01-01T00:00:00Z, which stands for an absent instant. */
  const ZERO_TIME: int := -62_135_596_800 * SECOND

  predicate IsZero(t: int) { t == ZERO_TIME }

  predicate Midnight(t: int) { t % DAY == 0 }

  predicate WholeSecond(t: int) { t % SECOND == 0 }

  /** Whole microseconds, or nothing when precision would be lost. */
  function Micros(t: int): Option<int> { if t % MICRO == 0 then Some(t / MICRO) else None }

  /** timestamptz keeps whole microseconds, rounded down. */
  function CanonicalTime(t: int): (r: int)
    ensures r % MICRO == 0 && r <= t < r + MICRO
  {
    t - t % MICRO
  }

  lemma CanonicalMonotone(a: int, b: int)
    requires a <= b
    ensures CanonicalTime(a) <= CanonicalTime(b)
  {
    assert CanonicalTime(a) == a / MICRO * MICRO && CanonicalTime(b) == b / MICRO * MICRO;
  }

  lemma CanonicalTwice(t: int)
    ensures CanonicalTime(CanonicalTime(t)) == CanonicalTime(t)
    ensures t % MICRO == 0 ==> CanonicalTime(t) == t
  {
  }

  function UnixMicro(m: int): int { m * MICRO }

  function Unix(t: int): int { t / SECOND }

  function TruncatedQuotient(x: int, y: int): int
    requires y > 0
  {
    if x >= 0 then x / y else -((-x) / y)
  }

  /** Go integer division rounds toward zero, so instants before 1970 round up. */
  function Days(t: int): int { TruncatedQuotient(Unix(t), 86_400) }

  predicate SameUtcDay(a: int, b: int) { a / DAY == b / DAY }

  const DATE := "date"
  const WHOLE_SECOND := "second"
  const UNKNOWN := "unknown"

  function NormalizePrecision(p: string): string { if p == "" then UNKNOWN else p }

  datatype Temporal = Temporal(
    observedAt: int, observedPrecision: string, publishedAt: int, publishedPrecision: string,
    availableAt: int, ingestedAt: int)

  /** The rules for prices, fundamentals and economics. */
  predicate ValidTemporal(t: Temporal, publishedRequired: bool)
  {
    var precision := NormalizePrecision(t.observedPrecision);
    && !IsZero(t.observedAt) && !IsZero(t.availableAt) && !IsZero(t.ingestedAt)
    && precision in {DATE, WHOLE_SECOND, UNKNOWN}
    && (precision == DATE ==> Midnight(t.observedAt))
    && (precision == WHOLE_SECOND ==> WholeSecond(t.observedAt))
    && (publishedRequired ==> !IsZero(t.publishedAt))
    && (!IsZero(t.publishedAt) ==> t.observedAt <= t.publishedAt <= t.availableAt)
    && t.availableAt <= t.ingestedAt
  }

  predicate ValidFilingInstant(at: int, p: string)
  {
    var precision := NormalizePrecision(p);
    && precision in {DATE, WHOLE_SECOND, UNKNOWN}
    && (IsZero(at) ==> precision == UNKNOWN)
    && (!IsZero(at) && precision == DATE ==> Midnight(at))
    && (!IsZero(at) && precision == WHOLE_SECOND ==> WholeSecond(at))
  }

  /** The rules for filings, whose observed and published instants are both optional. */
  predicate ValidFilingTemporal(t: Temporal)
  {
    && !IsZero(t.availableAt) && !IsZero(t.ingestedAt) && t.availableAt <= t.ingestedAt
    && ValidFilingInstant(t.observedAt, t.observedPrecision)
    && ValidFilingInstant(t.publishedAt, t.publishedPrecision)
    && (!IsZero(t.observedAt) && !IsZero(t.publishedAt) ==> t.observedAt <= t.publishedAt)
    && (!IsZero(t.publishedAt) ==> t.publishedAt <= t.availableAt)
  }

  lemma MicrosRoundTrip(t: int)
    requires Micros(t).Some?
    ensures UnixMicro(Micros(t).value) == t
    ensures Micros(t).value == 0 <==> t == 0
  {
  }

  /** Rounding toward zero finds the UTC day of an instant unless it is before 1970 and not on a day boundary. */
  lemma DaysIsUtcDay(t: int)
    ensures Days(t) == t / DAY <==> Unix(t) >= 0 || Unix(t) % 86_400 == 0
    ensures Unix(t) < 0 && Unix(t) % 86_400 != 0 ==> Days(t) == t / DAY + 1
  {
    var u := Unix(t);
    assert t / DAY == u / 86_400;
    if u < 0 {
      assert u == 86_400 * (u / 86_400) + u % 86_400;
      assert -u == 86_400 * ((-u) / 86_400) + (-u) % 86_400;
    }
  }

  lemma DayStart(day: int)
    ensures Midnight(day * DAY) && (day * DAY) / DAY == day
  {
  }
}

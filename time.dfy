/**
 * `java.time.Instant` and `Duration` arithmetic. An instant is a whole number of
 * milliseconds since the epoch; the clock is never read, callers pass `now`.
 */
module Time {

  type Instant = int

  const MillisPerSecond: int := 1000
  const SecondsPerMinute: int := 60
  const SecondsPerHour: int := 3600
  const SecondsPerDay: int := 86400

  /** Java's integer `/` on `long`: truncation toward zero (Dafny's `/` is Euclidean). */
  function JavaDiv(a: int, b: int): (q: int)
    requires b > 0
    ensures a >= 0 ==> q == a / b
    ensures a < 0 ==> q == -((-a) / b)
  {
    if a >= 0 then a / b else -((-a) / b)
  }

  /** `Instant.getEpochSecond()`: seconds rounded toward negative infinity. */
  function EpochSecond(t: Instant): int {
    t / MillisPerSecond
  }

  /** `Duration.between(from, to).getSeconds()`: whole seconds, rounded down. */
  function BetweenSeconds(from: Instant, to: Instant): int {
    (to - from) / MillisPerSecond
  }

  /** `Duration.between(from, to).toDays()`. */
  function DaysBetween(from: Instant, to: Instant): int {
    JavaDiv(BetweenSeconds(from, to), SecondsPerDay)
  }

  /** `Duration.between(from, to).toMinutes()`. */
  function MinutesBetween(from: Instant, to: Instant): int {
    JavaDiv(BetweenSeconds(from, to), SecondsPerMinute)
  }

  /** `Duration.between(a, b).abs()` in milliseconds. */
  function AbsMillis(a: Instant, b: Instant): nat {
    if b - a < 0 then a - b else b - a
  }

  /** `Duration.between(a, b).abs().toHours()`. */
  function AbsHoursBetween(a: Instant, b: Instant): nat {
    AbsMillis(a, b) / MillisPerSecond / SecondsPerHour
  }

  /** `Duration.between(a, b).abs().toDays()`. */
  function AbsDaysBetween(a: Instant, b: Instant): nat {
    AbsMillis(a, b) / MillisPerSecond / SecondsPerDay
  }

  function Minutes(m: int): int { m * SecondsPerMinute * MillisPerSecond }

  function Days(d: int): int { d * SecondsPerDay * MillisPerSecond }

  /** `Instant.plusSeconds`. */
  function PlusSeconds(t: Instant, s: int): Instant { t + s * MillisPerSecond }

  /** The whole days counted since an earlier instant are exactly the full 86 400 s periods elapsed. */
  lemma DaysBetweenForward(from: Instant, to: Instant)
    requires from <= to
    ensures DaysBetween(from, to) >= 0
    ensures Days(DaysBetween(from, to)) <= to - from < Days(DaysBetween(from, to) + 1)
  {
  }

  /** A later start never counts more whole days up to the same instant. */
  lemma DaysBetweenAntitone(a: Instant, b: Instant, to: Instant)
    requires a <= b
    ensures DaysBetween(b, to) <= DaysBetween(a, to)
  {
    var sa, sb := BetweenSeconds(a, to), BetweenSeconds(b, to);
    assert sb <= sa by {
      assert to - b <= to - a;
    }
    if sb >= 0 {
      assert sb / SecondsPerDay <= sa / SecondsPerDay;
    } else if sa >= 0 {
    } else {
      assert (-sa) / SecondsPerDay <= (-sb) / SecondsPerDay;
    }
  }
}

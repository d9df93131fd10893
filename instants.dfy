/**
 * The part of JavaScript's `Date` that the alarm logic relies on, on the
 * local wall-clock timeline: an instant is a whole number of milliseconds,
 * and every day is exactly 24 hours long (no time zone changes, no daylight
 * saving, no calendar: a day is just a number).
 */
module Instants {

  const MsPerSecond: int := 1000
  const MsPerMinute: int := 60_000
  const MsPerHour: int := 3_600_000
  const MsPerDay: int := 86_400_000

  /** Milliseconds since the start of local day 0. */
  type Instant = int

  /** The local day an instant falls on (`getDate()` without the calendar). */
  function DayOf(t: Instant): int
  {
    t / MsPerDay
  }

  /** Milliseconds elapsed since local midnight. */
  function TimeOfDay(t: Instant): (r: int)
    ensures 0 <= r < MsPerDay
    ensures t == DayOf(t) * MsPerDay + r
  {
    t % MsPerDay
  }

  /** `getHours()`. */
  function HourOf(t: Instant): (h: int)
    ensures 0 <= h < 24
  {
    TimeOfDay(t) / MsPerHour
  }

  /** `getMinutes()`. */
  function MinuteOf(t: Instant): (m: int)
    ensures 0 <= m < 60
  {
    TimeOfDay(t) % MsPerHour / MsPerMinute
  }

  /** `getSeconds()`. */
  function SecondOf(t: Instant): (s: int)
    ensures 0 <= s < 60
  {
    TimeOfDay(t) % MsPerMinute / MsPerSecond
  }

  /** `getMilliseconds()`. */
  function MillisecondOf(t: Instant): (ms: int)
    ensures 0 <= ms < 1000
  {
    TimeOfDay(t) % MsPerSecond
  }

  /** Every instant is the sum of its calendar-free parts. */
  lemma Decompose(t: Instant)
    ensures t == DayOf(t) * MsPerDay + HourOf(t) * MsPerHour + MinuteOf(t) * MsPerMinute
                 + SecondOf(t) * MsPerSecond + MillisecondOf(t)
  {
  }

  /** Euclidean division is determined by its defining equation. */
  lemma DivModUnique(x: int, d: int, q: int, r: int)
    requires 0 < d && 0 <= r < d && x == q * d + r
    ensures x / d == q && x % d == r
  {
    var k := x / d - q;
    assert k * d == r - x % d by {
      assert (x / d) * d - q * d == k * d;
    }
    if k > 0 {
      MulAtLeast(k, d);
    } else if k < 0 {
      MulAtLeast(-k, d);
    }
  }

  lemma {:induction false} MulAtLeast(k: int, d: int)
    requires 0 < k && 0 < d
    ensures k * d >= d && (-k) * d <= -d
  {
    if k > 1 {
      MulAtLeast(k - 1, d);
      assert k * d == (k - 1) * d + d;
    }
    assert (-k) * d == -(k * d);
  }

  /**
   * `new Date(year, month, date, hours, minutes)`: the instant of local day
   * `day` at `hour`:`minute`, with zero seconds and milliseconds.
   */
  function At(day: int, hour: int, minute: int): (t: Instant)
    requires 0 <= hour < 24 && 0 <= minute < 60
    ensures DayOf(t) == day && HourOf(t) == hour && MinuteOf(t) == minute
    ensures SecondOf(t) == 0 && MillisecondOf(t) == 0
    ensures TimeOfDay(t) == hour * MsPerHour + minute * MsPerMinute
  {
    var r := hour * MsPerHour + minute * MsPerMinute;
    var t := day * MsPerDay + r;
    DivModUnique(t, MsPerDay, day, r);
    DivModUnique(r, MsPerHour, hour, minute * MsPerMinute);
    DivModUnique(r % MsPerHour, MsPerMinute, minute, 0);
    DivModUnique(r, MsPerMinute, hour * 60 + minute, 0);
    DivModUnique(r, MsPerSecond, hour * 3600 + minute * 60, 0);
    t
  }

  /** An instant with zero seconds and milliseconds is determined by its day, hour and minute. */
  lemma WholeMinute(t: Instant)
    requires SecondOf(t) == 0 && MillisecondOf(t) == 0
    ensures t == At(DayOf(t), HourOf(t), MinuteOf(t))
  {
    Decompose(t);
  }
}

/**
 * `Duration(TimeSpan)`: splits a time span into its `Days`, `Hours` and
 * `Minutes` components as .NET's `TimeSpan` reports them. A span is a count
 * of 100-nanosecond ticks in a 64-bit integer; each component is a quotient
 * of the ticks rounded toward zero, and `Hours`/`Minutes` are remainders
 * that take the sign of the span, so seconds and smaller units are dropped.
 */
module Durations {
  const TicksPerMinute: int := 600_000_000
  const TicksPerHour: int := 60 * TicksPerMinute
  const TicksPerDay: int := 24 * TicksPerHour

  /** C#'s `long`. */
  type Int64 = x: int | -0x8000_0000_0000_0000 <= x < 0x8000_0000_0000_0000

  datatype TimeSpan = TimeSpan(ticks: Int64)

  datatype Duration = Duration(days: int, hours: int, minutes: int)

  /** C#'s integer `/`: the quotient rounded toward zero. */
  function Quot(a: int, b: int): int
    requires b > 0
  {
    if a >= 0 then a / b else -((-a) / b)
  }

  /** C#'s integer `%`: the remainder that goes with `Quot`, with the sign of `a`. */
  function Rem(a: int, b: int): int
    requires b > 0
  {
    a - b * Quot(a, b)
  }

  /** `TimeSpan.Days`. */
  function Days(t: TimeSpan): int { Quot(t.ticks, TicksPerDay) }

  /** `TimeSpan.Hours`. */
  function Hours(t: TimeSpan): int { Rem(Quot(t.ticks, TicksPerHour), 24) }

  /** `TimeSpan.Minutes`. */
  function Minutes(t: TimeSpan): int { Rem(Quot(t.ticks, TicksPerMinute), 60) }

  function Abs(x: int): nat { if x < 0 then -x else x }

  /** The constructor `Duration(TimeSpan)`. */
  function FromTimeSpan(t: TimeSpan): (d: Duration)
    // The days are the whole days in the span, counted toward zero.
    ensures Abs(d.days) * TicksPerDay <= Abs(t.ticks) < (Abs(d.days) + 1) * TicksPerDay
    ensures t.ticks >= 0 ==> d.days >= 0
    ensures t.ticks <= 0 ==> d.days <= 0
    // The (int) casts lose nothing.
    ensures -0x8000_0000 <= d.days < 0x8000_0000
    // For a non-negative span hours and minutes are clock readings; for a negative one, their mirror.
    ensures t.ticks >= 0 ==> 0 <= d.hours < 24 && 0 <= d.minutes < 60
    ensures t.ticks <= 0 ==> -24 < d.hours <= 0 && -60 < d.minutes <= 0
    // Together they are the span's whole minutes: seconds and ticks are dropped.
    ensures Abs(d.days * 1440 + d.hours * 60 + d.minutes) * TicksPerMinute <= Abs(t.ticks)
              < (Abs(d.days * 1440 + d.hours * 60 + d.minutes) + 1) * TicksPerMinute
    ensures d.days * 1440 + d.hours * 60 + d.minutes == Quot(t.ticks, TicksPerMinute)
  {
    ComponentsOf(t.ticks);
    Duration(Days(t), Hours(t), Minutes(t))
  }

  /** The arithmetic behind `FromTimeSpan`, for a non-negative tick count. */
  lemma NonNegativeComponents(ticks: int)
    requires ticks >= 0
    ensures var m, h, d := ticks / TicksPerMinute, ticks / TicksPerHour, ticks / TicksPerDay;
      && h == m / 60 && d == h / 24
      && d * TicksPerDay <= ticks < (d + 1) * TicksPerDay
      && m * TicksPerMinute <= ticks < (m + 1) * TicksPerMinute
      && 0 <= h - 24 * d < 24 && 0 <= m - 60 * h < 60
  {
  }

  /** The components of a tick count of either sign. */
  lemma ComponentsOf(ticks: Int64)
    ensures var t := TimeSpan(ticks);
      var total := Days(t) * 1440 + Hours(t) * 60 + Minutes(t);
      && Abs(Days(t)) * TicksPerDay <= Abs(ticks) < (Abs(Days(t)) + 1) * TicksPerDay
      && (ticks >= 0 ==> Days(t) >= 0 && 0 <= Hours(t) < 24 && 0 <= Minutes(t) < 60)
      && (ticks <= 0 ==> Days(t) <= 0 && -24 < Hours(t) <= 0 && -60 < Minutes(t) <= 0)
      && -0x8000_0000 <= Days(t) < 0x8000_0000
      && total == Quot(ticks, TicksPerMinute)
      && Abs(total) * TicksPerMinute <= Abs(ticks) < (Abs(total) + 1) * TicksPerMinute
  {
    NonNegativeComponents(Abs(ticks));
  }
}

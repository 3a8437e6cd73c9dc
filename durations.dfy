/**
 * Arithmetic on parsed timestamps as pandas does it: a difference of two
 * timestamps is a Timedelta, NaT on either side gives NaT, `.dt.days` is the
 * whole number of days rounded toward minus infinity, and
 * `.dt.total_seconds() / 3600` is the length in fractional hours.
 */
module Durations {
  import opened Wrappers

  const SecondsPerDay: int := 86400
  const SecondsPerHour: int := 3600

  /** Timedelta.days: the largest whole number of days not exceeding the duration. */
  function WholeDays(seconds: int): (d: int)
    ensures d * SecondsPerDay <= seconds < d * SecondsPerDay + SecondsPerDay
  {
    seconds / SecondsPerDay
  }

  /** Timedelta.total_seconds() / 3600. */
  function Hours(seconds: int): (h: real)
    ensures h * (SecondsPerHour as real) == seconds as real
    ensures (h < 0.0) == (seconds < 0)
  {
    (seconds as real) / (SecondsPerHour as real)
  }

  /** (later - earlier).dt.days on nullable timestamps. */
  function DaysBetween(later: Option<int>, earlier: Option<int>): (r: Option<int>)
    ensures r.Some? <==> later.Some? && earlier.Some?
    ensures r.Some? ==> r.value * SecondsPerDay <= later.value - earlier.value < r.value * SecondsPerDay + SecondsPerDay
  {
    if later.Some? && earlier.Some? then Some(WholeDays(later.value - earlier.value)) else None
  }

  /** (later - earlier).dt.total_seconds() / 3600 on nullable timestamps. */
  function HoursBetween(later: Option<int>, earlier: Option<int>): (r: Option<real>)
    ensures r.Some? <==> later.Some? && earlier.Some?
    ensures r.Some? ==> r.value * (SecondsPerHour as real) == (later.value - earlier.value) as real
  {
    if later.Some? && earlier.Some? then Some(Hours(later.value - earlier.value)) else None
  }

  /** Column addition on nullable numbers: NaN on either side gives NaN. */
  function AddNullable(a: Option<real>, b: Option<real>): (r: Option<real>)
    ensures r.Some? <==> a.Some? && b.Some?
    ensures r.Some? ==> r.value - b.value == a.value
  {
    if a.Some? && b.Some? then Some(a.value + b.value) else None
  }
}

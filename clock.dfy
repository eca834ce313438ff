/** Wall-clock arithmetic in the form chrono offers it, over integer epoch seconds in a zone
    with a fixed UTC offset (`offset` seconds east of UTC; 0 for `Utc`). */
module Clock {

  import opened Wrappers

  const Minute: int := 60
  const Hour: int := 3600
  const Day: int := 86400

  /** Seconds since local midnight. */
  function SecondOfDay(t: int, offset: int): (r: nat)
    ensures r < Day
  {
    (t + offset) % Day
  }

  /** The local calendar day, counted from the epoch. */
  function DayNumber(t: int, offset: int): int {
    (t + offset) / Day
  }

  /** The local time-of-day components. */
  function HourOf(t: int, offset: int): (h: nat)
    ensures h < 24
  {
    SecondOfDay(t, offset) / Hour
  }

  function MinuteOf(t: int, offset: int): (m: nat)
    ensures m < 60
  {
    SecondOfDay(t, offset) % Hour / Minute
  }

  function SecondOf(t: int, offset: int): (s: nat)
    ensures s < 60
  {
    SecondOfDay(t, offset) % Minute
  }

  /** An instant is its local day and its time of day. */
  lemma Decompose(t: int, offset: int)
    ensures t == DayNumber(t, offset) * Day + SecondOfDay(t, offset) - offset
    ensures SecondOfDay(t, offset) == HourOf(t, offset) * Hour + MinuteOf(t, offset) * Minute + SecondOf(t, offset)
  {
  }

  /** Two instants on the same local time of day are a whole number of days apart. */
  lemma SameTimeOfDay(a: int, b: int, offset: int)
    requires SecondOfDay(a, offset) == SecondOfDay(b, offset)
    ensures a - b == (DayNumber(a, offset) - DayNumber(b, offset)) * Day
  {
    Decompose(a, offset);
    Decompose(b, offset);
  }

  /** Moving by whole days keeps the time of day and moves the day number. */
  lemma ShiftDays(t: int, offset: int, k: int)
    ensures SecondOfDay(t + k * Day, offset) == SecondOfDay(t, offset)
    ensures DayNumber(t + k * Day, offset) == DayNumber(t, offset) + k
  {
    var q, r := DayNumber(t, offset), SecondOfDay(t, offset);
    Decompose(t, offset);
    assert t + k * Day + offset == (q + k) * Day + r;
    DivMod(t + k * Day + offset, q + k, r);
  }

  /** Euclidean division by a day is unique. */
  lemma DivMod(x: int, q: int, r: int)
    requires 0 <= r < Day && x == q * Day + r
    ensures x / Day == q && x % Day == r
  {
  }

  /** `with_time(NaiveTime(sod))`: the same local day at time-of-day `sod`. */
  function WithTime(t: int, offset: int, sod: nat): (r: int)
    requires sod < Day
    ensures SecondOfDay(r, offset) == sod
    ensures DayNumber(r, offset) == DayNumber(t, offset)
  {
    Decompose(t, offset);
    DivMod(t - SecondOfDay(t, offset) + sod + offset, DayNumber(t, offset), sod);
    t - SecondOfDay(t, offset) + sod
  }

  /** `with_hour(h)`, `with_minute(m)`, `with_second(s)`: replace one component, keep the rest. */
  function WithHour(t: int, offset: int, h: nat): (r: int)
    requires h < 24
    ensures DayNumber(r, offset) == DayNumber(t, offset)
    ensures HourOf(r, offset) == h && MinuteOf(r, offset) == MinuteOf(t, offset) && SecondOf(r, offset) == SecondOf(t, offset)
  {
    WithTime(t, offset, h * Hour + MinuteOf(t, offset) * Minute + SecondOf(t, offset))
  }

  function WithMinute(t: int, offset: int, m: nat): (r: int)
    requires m < 60
    ensures DayNumber(r, offset) == DayNumber(t, offset)
    ensures HourOf(r, offset) == HourOf(t, offset) && MinuteOf(r, offset) == m && SecondOf(r, offset) == SecondOf(t, offset)
  {
    WithTime(t, offset, HourOf(t, offset) * Hour + m * Minute + SecondOf(t, offset))
  }

  function WithSecond(t: int, offset: int, s: nat): (r: int)
    requires s < 60
    ensures DayNumber(r, offset) == DayNumber(t, offset)
    ensures HourOf(r, offset) == HourOf(t, offset) && MinuteOf(r, offset) == MinuteOf(t, offset) && SecondOf(r, offset) == s
  {
    WithTime(t, offset, HourOf(t, offset) * Hour + MinuteOf(t, offset) * Minute + s)
  }

  /** Two instants with the same local day and time of day are equal. */
  lemma SameLocalTime(a: int, b: int, offset: int)
    requires DayNumber(a, offset) == DayNumber(b, offset)
    requires HourOf(a, offset) == HourOf(b, offset) && MinuteOf(a, offset) == MinuteOf(b, offset)
    requires SecondOf(a, offset) == SecondOf(b, offset)
    ensures a == b
  {
    Decompose(a, offset);
    Decompose(b, offset);
  }

  /** `chrono::Duration::to_std`: fails (`Err`) on a negative duration. */
  function ToStd(d: int): (r: Option<nat>)
    ensures r.Some? <==> d >= 0
    ensures r.Some? ==> r.value == d
  {
    if d >= 0 then Some(d) else None
  }
}

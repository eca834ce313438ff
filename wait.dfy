/** The two schedulers of src/functions/periodic/wait.rs: the digest runs daily at local
    04:00, and the contest scan runs at every UTC ten-minute boundary. */
module Wait {

  import opened Wrappers
  import opened Clock

  /** Local time of day of the daily digest, 04:00:00. */
  const DigestTime: nat := 4 * Hour

  /** Spacing of the contest scans. */
  const ScanPeriod: nat := 10 * Minute

  /** Today's 04:00 if it is not before now, otherwise tomorrow's: the first 04:00 at or after now. */
  function DailyTarget(now: int, offset: int): (r: int)
    ensures now <= r < now + Day
    ensures SecondOfDay(r, offset) == DigestTime
    ensures forall t :: now <= t < r ==> SecondOfDay(t, offset) != DigestTime
  {
    var res := WithTime(now, offset, DigestTime);
    var d, sod := DayNumber(now, offset), SecondOfDay(now, offset);
    Decompose(now, offset);
    Decompose(res, offset);
    ShiftDays(res, offset, 1);
    var r := if res < now then res + Day else res;
    forall t | now <= t < r ensures SecondOfDay(t, offset) != DigestTime {
      if res >= now {
        NotDigestTime(t, offset, d, sod, DigestTime);
      } else if t + offset < (d + 1) * Day {
        NotDigestTime(t, offset, d, sod, Day);
      } else {
        NotDigestTime(t, offset, d + 1, 0, DigestTime);
      }
    }
    r
  }

  /** An instant whose local time of day lies in `[lo, hi)` of day `d`, an interval that
      does not contain 04:00, is not at 04:00. */
  lemma NotDigestTime(t: int, offset: int, d: int, lo: int, hi: int)
    requires 0 <= lo && hi <= Day && (lo > DigestTime || hi <= DigestTime)
    requires d * Day + lo <= t + offset < d * Day + hi
    ensures SecondOfDay(t, offset) != DigestTime
  {
    DivMod(t + offset, d, t + offset - d * Day);
  }

  /** `(target_time - now).to_std().unwrap()` never fails and is less than a day. */
  function DailySleep(now: int, offset: int): (r: Option<nat>)
    ensures r.Some? && r.value < Day
    ensures now + r.value == DailyTarget(now, offset)
  {
    ToStd(DailyTarget(now, offset) - now)
  }

  /** Exactly at 04:00 the digest runs at once. */
  lemma AtDigestTimeNoSleep(now: int, offset: int)
    requires SecondOfDay(now, offset) == DigestTime
    ensures DailySleep(now, offset) == Some(0)
  {
  }

  /** The first ten-minute boundary (UTC) at or after `t`. */
  function NextBoundary(t: int): (r: int)
    ensures r % ScanPeriod == 0
    ensures t <= r < t + ScanPeriod
    ensures forall u :: t <= u < r ==> u % ScanPeriod != 0
  {
    var q := t / ScanPeriod;
    if t % ScanPeriod == 0 then t
    else
      forall u | t <= u < (q + 1) * ScanPeriod ensures u % ScanPeriod != 0 {
        NoBoundaryInside(q, u);
      }
      (q + 1) * ScanPeriod
  }

  /** Strictly between two consecutive boundaries there is none. */
  lemma NoBoundaryInside(q: int, u: int)
    requires q * 600 < u < (q + 1) * 600
    ensures u % 600 != 0
  {
    assert u / 600 == q;
  }

  /** The top of the UTC hour is a ten-minute boundary within the hour before `now`. */
  lemma TopOfHour(now: int)
    ensures var start := WithSecond(WithMinute(now, 0, 0), 0, 0);
      start % 600 == 0 && now - 3600 < start <= now
  {
    var start := WithSecond(WithMinute(now, 0, 0), 0, 0);
    var d, h := DayNumber(now, 0), HourOf(now, 0);
    Decompose(now, 0);
    Decompose(start, 0);
    assert start == d * 86400 + h * 3600;
    assert now - start == MinuteOf(now, 0) * 60 + SecondOf(now, 0);
    assert start == (d * 144 + h * 6) * 600;
    MultipleOfPeriod(d * 144 + h * 6);
  }

  lemma MultipleOfPeriod(k: int)
    ensures (k * 600) % 600 == 0
  {
  }

  /** A ten-minute boundary reads as minute 0, 10, ..., 50 and second 0. */
  lemma BoundaryClock(t: int)
    requires t % 600 == 0
    ensures MinuteOf(t, 0) % 10 == 0 && SecondOf(t, 0) == 0
  {
    var q := t / 600;
    var d, k := q / 144, q % 144;
    var h, m := k / 6, k % 6;
    assert t == d * Day + k * 600;
    DivMod(t, d, k * 600);
    assert SecondOfDay(t, 0) == k * 600;
    assert k * 600 == h * 3600 + m * 600;
    assert SecondOfDay(t, 0) % Hour == m * 600;
    assert MinuteOf(t, 0) == m * 10;
  }

  /** Only one ten-minute boundary lies in any ten-minute interval. */
  lemma OneBoundary(now: int, a: int)
    requires a % 600 == 0 && now <= a < now + 600
    ensures a == NextBoundary(now)
  {
    var b := NextBoundary(now);
    assert a / 600 * 600 == a && b / 600 * 600 == b;
  }

  /** The boundary computation of the scan loop: start at the top of the current UTC hour
      (`with_minute(0)`, `with_second(0)`), then `while res < now { res += 10 min }`.
      `steps` counts the iterations. */
  method ScanTarget(now: int) returns (target: int, steps: nat)
    ensures target == NextBoundary(now)
    ensures MinuteOf(target, 0) % 10 == 0 && SecondOf(target, 0) == 0
    ensures steps <= 6
    ensures now % ScanPeriod == 0 ==> target == now
  {
    var start := WithSecond(WithMinute(now, 0, 0), 0, 0);
    TopOfHour(now);
    var res := start;
    steps := 0;
    while res < now
      invariant res - start == steps * 600
      invariant res % 600 == 0
      invariant steps > 0 ==> res - 600 < now
      decreases now - res
    {
      res := res + 600;
      steps := steps + 1;
    }
    target := res;
    OneBoundary(now, target);
    BoundaryClock(target);
  }
}

/** The scheduler of src/daily_job.rs: sleep until the next local midnight, then run the
    digest. Only the target and the sleep computed in each iteration are modelled. */
module DailyJob {

  import opened Wrappers
  import opened Clock

  /** `(now + 1 day).with_time(00:00:00)`: midnight at the start of the next local day. */
  function NextMidnight(now: int, offset: int): (r: int)
    ensures now < r <= now + Day
    ensures SecondOfDay(r, offset) == 0
    ensures DayNumber(r, offset) == DayNumber(now, offset) + 1
  {
    ShiftDays(now, offset, 1);
    Decompose(now, offset);
    var r := WithTime(now + Day, offset, 0);
    Decompose(r, offset);
    r
  }

  /** No midnight lies strictly between `now` and the target. */
  lemma NextMidnightIsNext(now: int, offset: int, t: int)
    requires now < t < NextMidnight(now, offset)
    ensures SecondOfDay(t, offset) != 0
  {
    var r := NextMidnight(now, offset);
    Decompose(now, offset);
    Decompose(t, offset);
    Decompose(r, offset);
  }

  /** Exactly at midnight the bot sleeps a whole day rather than not at all. */
  lemma AtMidnightSleepsADay(now: int, offset: int)
    requires SecondOfDay(now, offset) == 0
    ensures NextMidnight(now, offset) - now == Day
  {
    SameTimeOfDay(NextMidnight(now, offset), now, offset);
  }

  /** `(target_time - now).to_std().unwrap()`: never fails, and sleeps at most a day. */
  function Sleep(now: int, offset: int): (r: Option<nat>)
    ensures r.Some? && 0 < r.value <= Day
    ensures now + r.value == NextMidnight(now, offset)
  {
    ToStd(NextMidnight(now, offset) - now)
  }

  /** Each iteration recomputes its target from the clock alone: any two instants of the
      same local day share it. */
  lemma TargetDependsOnDayOnly(a: int, b: int, offset: int)
    requires DayNumber(a, offset) == DayNumber(b, offset)
    ensures NextMidnight(a, offset) == NextMidnight(b, offset)
  {
    SameTimeOfDay(NextMidnight(a, offset), NextMidnight(b, offset), offset);
  }
}

// The simulation clock: SimulationTime.java. A reading is the second of the day it shows.
module Clock {
  /** The seconds in a day; a clock reading is always below it. */
  const SECONDS_PER_DAY: nat := 86400

  /** The fields a `LocalTime` accepts: an hour of the day, a minute and a second. */
  predicate ValidClock(hour: int, minute: int, second: int)
  {
    0 <= hour < 24 && 0 <= minute < 60 && 0 <= second < 60
  }

  /** The second of the day shown by a valid hour, minute and second. */
  function SecondOfDay(hour: int, minute: int, second: int): (r: nat)
    requires ValidClock(hour, minute, second)
    ensures r < SECONDS_PER_DAY
  {
    hour * 3600 + minute * 60 + second
  }

  function Hour(t: nat): nat
  {
    t / 3600
  }

  function Minute(t: nat): nat
  {
    t / 60 % 60
  }

  function Second(t: nat): nat
  {
    t % 60
  }

  /** The reading `n` seconds after `t`, wrapping past midnight as `LocalTime.plusSeconds` does. */
  function PlusSeconds(t: nat, n: nat): (r: nat)
    ensures r < SECONDS_PER_DAY
  {
    (t + n) % SECONDS_PER_DAY
  }

  /** Splitting a reading into hour, minute and second and putting it back together gives it back. */
  lemma ClockRoundTrip(t: nat)
    requires t < SECONDS_PER_DAY
    ensures ValidClock(Hour(t), Minute(t), Second(t))
    ensures SecondOfDay(Hour(t), Minute(t), Second(t)) == t
  {
    var h, r := t / 3600, t % 3600;
    assert t == h * 3600 + r;
    assert r / 60 == t / 60 % 60 && r % 60 == t % 60 by {
      assert t / 60 == h * 60 + r / 60;
    }
  }

  /** The fields read back from a reading built from valid fields are those fields. */
  lemma FieldsRoundTrip(hour: int, minute: int, second: int)
    requires ValidClock(hour, minute, second)
    ensures Hour(SecondOfDay(hour, minute, second)) == hour
    ensures Minute(SecondOfDay(hour, minute, second)) == minute
    ensures Second(SecondOfDay(hour, minute, second)) == second
  {
    var t := SecondOfDay(hour, minute, second);
    var r := minute * 60 + second;
    assert t == hour * 3600 + r && r < 3600;
    assert t / 60 == hour * 60 + minute;
  }

  /** One tick after `n` seconds is `n + 1` seconds: ticking a clock `n` times adds `n` seconds. */
  lemma PlusSecondsStep(t: nat, n: nat)
    ensures PlusSeconds(PlusSeconds(t, n), 1) == PlusSeconds(t, n + 1)
  {
    var q := (t + n) / SECONDS_PER_DAY;
    assert t + n == q * SECONDS_PER_DAY + PlusSeconds(t, n);
    assert t + n + 1 == q * SECONDS_PER_DAY + (PlusSeconds(t, n) + 1);
    if PlusSeconds(t, n) + 1 < SECONDS_PER_DAY {
    } else {
      assert t + n + 1 == (q + 1) * SECONDS_PER_DAY;
    }
  }

  /** A tick moves the clock one second on, except that 23:59:59 wraps to 00:00:00. */
  lemma TickWraps(t: nat)
    requires t < SECONDS_PER_DAY
    ensures t < SECONDS_PER_DAY - 1 ==> PlusSeconds(t, 1) == t + 1
    ensures t == SecondOfDay(23, 59, 59) ==> PlusSeconds(t, 1) == SecondOfDay(0, 0, 0)
  {
    if t + 1 == SECONDS_PER_DAY {
      assert PlusSeconds(t, 1) == SECONDS_PER_DAY % SECONDS_PER_DAY == 0;
    } else {
      assert PlusSeconds(t, 1) == t + 1;
    }
  }

  /**
   * Because the clock wraps, no number of ticks ever takes it past 23:59:59: a simulation
   * whose end is 23:59:59 never finds its time past the end.
   */
  lemma EndOfDayNeverPassed(t: nat, n: nat)
    ensures PlusSeconds(t, n) <= SecondOfDay(23, 59, 59)
  {
  }

  class SimulationTime {
    /** The reading, as a second of the day. */
    var time: nat

    predicate Valid()
      reads this
    {
      time < SECONDS_PER_DAY
    }

    /** A copy of another clock: a separate object showing the same hour, minute and second. */
    constructor Copy(other: SimulationTime)
      requires other.Valid()
      ensures Valid() && time == other.time
    {
      ClockRoundTrip(other.time);
      time := SecondOfDay(Hour(other.time), Minute(other.time), Second(other.time));
    }

    /** A clock showing the given time; `LocalTime.of` refuses fields outside a day. */
    constructor (hour: int, minute: int, second: int)
      requires ValidClock(hour, minute, second)
      ensures Valid() && time == SecondOfDay(hour, minute, second)
    {
      time := SecondOfDay(hour, minute, second);
    }

    /** True unless this clock is past the ending time. */
    predicate IsTimeBeforeOrDuring(endingTime: SimulationTime)
      reads this, endingTime
    {
      time <= endingTime.time
    }

    /** Adds one second, wrapping at midnight. */
    method Tick()
      modifies this`time
      ensures time == PlusSeconds(old(time), 1)
    {
      time := PlusSeconds(time, 1);
    }

    method SetTime(t: nat)
      requires t < SECONDS_PER_DAY
      modifies this`time
      ensures Valid() && time == t
    {
      time := t;
    }
  }

  /** A clock is never past itself. */
  lemma BeforeOrDuringReflexive(c: SimulationTime)
    ensures c.IsTimeBeforeOrDuring(c)
  {
  }

  /** With an end of 23:59:59, a clock that has ticked any number of times is still not past it. */
  lemma TickedClockWithinEndOfDay(c: SimulationTime, endingTime: SimulationTime, start: nat, n: nat)
    requires endingTime.time == SecondOfDay(23, 59, 59)
    requires c.time == PlusSeconds(start, n)
    ensures c.IsTimeBeforeOrDuring(endingTime)
  {
    EndOfDayNeverPassed(start, n);
  }
}

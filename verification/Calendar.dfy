/** Day numbers, weekdays and names against the civil calendar. */
module Calendar {
  import opened Options
  import opened Zones
  import opened Triggers
  import opened Evaluator
  import opened Occurrences
  import R = Rfc3339

  /** Weekdays follow each other in turn from a Thursday on day 0; nothing else does. */
  lemma {:induction false} WeekdayIsDetermined(f: int -> Weekday, date: int)
    requires f(0) == 3 && forall d :: f(d + 1) == (f(d) + 1) % 7
    ensures f(date) == WeekdayOf(date)
    decreases if date < 0 then -date else date
  {
    hide WeekdayOf;
    if date == 0 {
      FirstWeekday();
    } else if date > 0 {
      WeekdayIsDetermined(f, date - 1);
      NextWeekday(date - 1);
      assert f(date - 1 + 1) == (f(date - 1) + 1) % 7;
    } else {
      WeekdayIsDetermined(f, date + 1);
      NextWeekday(date);
      SameBefore(f(date), WeekdayOf(date));
    }
  }

  lemma FirstWeekday()
    ensures WeekdayOf(0) == 3
  { }

  lemma NextWeekday(date: int)
    ensures WeekdayOf(date + 1) == (WeekdayOf(date) + 1) % 7
  { }

  lemma SameBefore(a: Weekday, b: Weekday)
    requires (a + 1) % 7 == (b + 1) % 7
    ensures a == b
  { }

  lemma MonthStarts(year: nat)
    ensures R.DaysBeforeMonth(year, 1) == 0 && R.DaysBeforeMonth(year, 2) == 31
    ensures R.DaysBeforeMonth(year, 3) == 31 + R.DaysIn(year, 2)
    ensures R.DaysBeforeMonth(year, 9) == 31 + R.DaysIn(year, 2) + 184
  {
    var three := R.DaysBeforeMonth(year, 3);
    assert R.DaysBeforeMonth(year, 5) == three + 61;
    assert R.DaysBeforeMonth(year, 7) == three + 61 + 61;
    assert R.DaysBeforeMonth(year, 9) == three + 61 + 61 + 62;
  }

  lemma DayInYear(u: R.Utc)
    ensures R.DayNumber(u) == R.DaysBeforeYear(u.year) - R.DaysBeforeYear(1970) + R.DaysBeforeMonth(u.year, u.month)
                              + u.day - 1
  {
    hide R.DaysBeforeMonth;
    assert R.DaysBeforeYear(1970) == R.EPOCH_DAY;
  }

  /** Day 0 is the first of January 1970; the leap day of 2024 was a Thursday and 2026-09-19 is a Saturday. */
  lemma CivilDays()
    ensures R.DayNumber(R.Stamp(1970, 1, 1, 0, 0, 0, 0)) == 0
    ensures R.DayNumber(R.Stamp(2024, 2, 29, 0, 0, 0, 0)) == 19782 && WeekdayOf(19782) == 3
    ensures R.DayNumber(R.Stamp(2026, 9, 19, 0, 0, 0, 0)) == 20715 && WeekdayOf(20715) == 5
  {
    hide R.DaysBeforeMonth, R.DayNumber;
    assert R.Stamp(2024, 2, 29, 0, 0, 0, 0).Valid();
    MonthStarts(1970);
    MonthStarts(2024);
    MonthStarts(2026);
    DayInYear(R.Stamp(1970, 1, 1, 0, 0, 0, 0));
    DayInYear(R.Stamp(2024, 2, 29, 0, 0, 0, 0));
    DayInYear(R.Stamp(2026, 9, 19, 0, 0, 0, 0));
  }

  /** In the week from a Monday on, working days are the first five and the weekend the last two. */
  lemma PeriodsOfAWeek(monday: int, k: nat)
    requires WeekdayOf(monday) == 0 && k < 7
    ensures EveryDay.MatchesWeekday(WeekdayOf(monday + k))
    ensures Weekdays.MatchesWeekday(WeekdayOf(monday + k)) <==> k < 5
    ensures Weekends.MatchesWeekday(WeekdayOf(monday + k)) <==> k >= 5
    ensures forall days :: OnDays(days).MatchesWeekday(WeekdayOf(monday + k)) <==> k in days
  {
    assert WeekdayOf(monday + k) == k;
  }

  /** A zone name the database does not know shows UTC. */
  lemma UnknownZoneIsUtc(env: Env, timezone: string, t: int)
    requires env.zones(timezone) == None
    ensures Local(ZoneNamed(env, timezone), t) == t
  { }

  // ---------- a spring night ----------

  /** At 02:00 on day 10 the clock goes forward by so much. */
  function Spring(jump: nat): Zone {
    ZoneData(0, [Transition(10 * DAY + 2 * HOUR, jump)])
  }

  lemma SpringClock(jump: nat, t: int)
    ensures Local(Spring(jump), t) == if t < 10 * DAY + 2 * HOUR then t else t + jump
  {
    SegmentIs(Spring(jump), t, if t < 10 * DAY + 2 * HOUR then 0 else 1);
  }

  lemma SpringReading(jump: nat, local: int)
    ensures FromLocal(Spring(jump), local) == if local < 10 * DAY + 2 * HOUR then Single(local)
                                            else if local < 10 * DAY + 2 * HOUR + jump then Gap
                                            else Single(local - jump)
  {
    hide Local;
    FromLocalIsExact(Spring(jump), local);
    SpringClock(jump, local);
    SpringClock(jump, local - jump);
    match FromLocal(Spring(jump), local) {
      case Gap => assert Local(Spring(jump), local) != local && Local(Spring(jump), local - jump) != local;
      case Single(s) => SpringClock(jump, s);
      case Ambiguous(e, l) => SpringClock(jump, e); SpringClock(jump, l);
    }
  }

  /** A time in the gap moves on by quarters of an hour: 02:50 is taken at 03:05. */
  lemma SpringNightMovesOn(after: int)
    requires after < 10 * DAY
    ensures Resolve(Spring(HOUR), 10 * DAY + 2 * HOUR + 50 * MINUTE, after) == Some(10 * DAY + 2 * HOUR + 5 * MINUTE)
    ensures Local(Spring(HOUR), 10 * DAY + 2 * HOUR + 5 * MINUTE) == 10 * DAY + 3 * HOUR + 5 * MINUTE
  {
    hide Local, FromLocal;
    var local := 10 * DAY + 2 * HOUR + 50 * MINUTE;
    SpringReading(HOUR, local);
    SpringReading(HOUR, local + 15 * MINUTE);
    SpringClock(HOUR, 10 * DAY + 2 * HOUR + 5 * MINUTE);
    assert FirstAfterGap(Spring(HOUR), local, GAP_STEPS) == Some(local + 15 * MINUTE - HOUR);
  }

  /** By two hours at most: with a gap of three hours, 02:55 is dropped that night. */
  lemma LongGapDropsTheNight(after: int)
    ensures Resolve(Spring(3 * HOUR), 10 * DAY + 2 * HOUR + 55 * MINUTE, after) == None
  {
    hide Local, FromLocal, FirstAfterGap;
    var z, local := Spring(3 * HOUR), 10 * DAY + 2 * HOUR + 55 * MINUTE;
    SpringReading(3 * HOUR, local);
    FirstAfterGapIsFirst(z, local, GAP_STEPS);
    forall i | 1 <= i <= 8 ensures Skipped(z, local + i * QUARTER) {
      SpringReading(3 * HOUR, local + i * QUARTER);
      FromLocalIsExact(z, local + i * QUARTER);
    }
  }
}

/** The promise that each fuzzy window fires at most once, over whole runs: exactly when it is kept. */
module FuzzyRuns {
  import opened Options
  import opened Zones
  import opened Triggers
  import opened Evaluator
  import opened FuzzyWindows
  import opened Recurrence
  import opened SchedulerModel
  import opened SchedulerRuns
  import opened TriggerHistories
  import opened LoneTriggers

  /** The i-th and the j-th event of a run are a fuzzy trigger's, and on one date, so in one window. */
  ghost predicate FiresTwice(env: Env, period: FuzzyPeriod, windowStart: TimeOfDay, windowEnd: TimeOfDay, tz: string,
                             start: int, turns: seq<Turn>, id: TaskId, trigger: TriggerId, i: nat, j: nat) {
    && IsRun(env, start, turns) && KindIsStable(turns, id, trigger, Fuzzy(period, windowStart, windowEnd, tz))
    && var z, sent := ZoneNamed(env, tz), Run(env, start, turns).sent;
    && i < j < |sent| && FiredBy(sent[i], id, trigger) && FiredBy(sent[j], id, trigger)
    && DateOf(Local(z, sent[i].scheduledAt)) == DateOf(Local(z, sent[j].scheduledAt))
  }

  ghost predicate SomeRunFiresTwice(env: Env, period: FuzzyPeriod, windowStart: TimeOfDay, windowEnd: TimeOfDay,
                                    tz: string) {
    exists start, turns, id, trigger, i, j ::
      FiresTwice(env, period, windowStart, windowEnd, tz, start, turns, id, trigger, i, j)
  }

  /** Add the task, fire its first pick late, inside the repeated stretch, and fire the second when due. */
  function LateRun(kind: TriggerKind, after: int, later: int, second: int, dice: Dice): seq<Turn> {
    [Turn(after, dice, AddTask(Lone(0, 0, kind)))] + [Turn(later, dice, Timer)] + [Turn(second, dice, Timer)]
  }

  lemma LateRunFires(env: Env, kind: TriggerKind, after: int, later: int, dice: Dice)
    requires Next(env, kind, after, dice(0, 0)).Some? && Next(env, kind, later, dice(0, 0)).Some?
    requires Next(env, kind, after, dice(0, 0)).value <= later
    ensures var first, second := Next(env, kind, after, dice(0, 0)).value, Next(env, kind, later, dice(0, 0)).value;
            var turns := LateRun(kind, after, later, second, dice);
            && IsRun(env, after, turns) && KindIsStable(turns, 0, 0, kind)
            && Run(env, after, turns).sent == [TriggerEvent(0, Some(0), first), TriggerEvent(0, Some(0), second)]
  {
    hide Run, IsRun, Next;
    var first, second := Next(env, kind, after, dice(0, 0)).value, Next(env, kind, later, dice(0, 0)).value;
    NextIsAfter(env, kind, after, dice(0, 0));
    NextIsAfter(env, kind, later, dice(0, 0));
    var added := [Turn(after, dice, AddTask(Lone(0, 0, kind)))];
    var once := added + [Turn(later, dice, Timer)];
    LoneAdded(env, after, 0, 0, kind, after, dice);
    LoneFires(env, after, added, 0, 0, kind, first, [], later, dice);
    LoneFires(env, after, once, 0, 0, kind, second, [TriggerEvent(0, Some(0), first)], second, dice);
  }

  lemma HitTwiceFiresTwice(env: Env, period: FuzzyPeriod, windowStart: TimeOfDay, windowEnd: TimeOfDay, tz: string,
                           after: int, later: int, rolls: Rolls)
    requires windowStart < windowEnd
    requires HitsTwice(ZoneNamed(env, tz), period, windowStart, windowEnd, after, rolls, later, rolls)
    ensures SomeRunFiresTwice(env, period, windowStart, windowEnd, tz)
  {
    hide FirstPick, Run, IsRun, Local, LateRun, KindIsStable;
    var kind := Fuzzy(period, windowStart, windowEnd, tz);
    var dice: Dice := (id, trigger) => rolls;
    LateRunFires(env, kind, after, later, dice);
    var turns := LateRun(kind, after, later, Next(env, kind, later, rolls).value, dice);
    assert FiresTwice(env, period, windowStart, windowEnd, tz, after, turns, 0, 0, 0, 1);
  }

  /**
   In a calm zone no run of the scheduler fires a fuzzy trigger twice in one window if and
   only if no clock change repeats the start of a matching window.
   */
  lemma FiresOnceIffStartKept(env: Env, period: FuzzyPeriod, windowStart: TimeOfDay, windowEnd: TimeOfDay, tz: string)
    requires Calm(ZoneNamed(env, tz)) && windowStart < windowEnd
    ensures !SomeRunFiresTwice(env, period, windowStart, windowEnd, tz)
        <==> WindowStartKept(ZoneNamed(env, tz), period, windowStart)
  {
    hide Calm, HitsTwice, WeekdayOf, Local, Run, IsRun, KindIsStable, InWindow;
    var z := ZoneNamed(env, tz);
    if WindowStartKept(z, period, windowStart) {
      hide WindowStartKept;
      forall start, turns, id, trigger, i: nat, j: nat
        ensures !FiresTwice(env, period, windowStart, windowEnd, tz, start, turns, id, trigger, i, j)
      {
        if FiresTwice(env, period, windowStart, windowEnd, tz, start, turns, id, trigger, i, j) {
          FuzzyFiresOncePerWindow(env, start, turns, id, trigger, period, windowStart, windowEnd, tz, i, j);
          assert false;
        }
      }
    } else {
      var date :| period.MatchesWeekday(WeekdayOf(date)) && !NeverSetBackAcross(z, date * DAY + windowStart);
      var k :| 0 < k <= |z.transitions| && z.Opens(k) < date * DAY + windowStart < z.Closes(k);
      var after, later, rolls := RepeatedStartMeansTwice(z, period, windowStart, windowEnd, date, k);
      HitTwiceFiresTwice(env, period, windowStart, windowEnd, tz, after, later, rolls);
    }
  }

  // ---------- an autumn night ----------

  const NIGHT: TimeOfDay := 90 * MINUTE

  /** At 02:00 on day 10 the clock goes back to 01:00. */
  const AUTUMN: Zone := ZoneData(0, [Transition(10 * DAY + 2 * HOUR, -HOUR)])

  lemma AutumnRepeatsNight()
    ensures Calm(AUTUMN) && !WindowStartKept(AUTUMN, EveryDay, NIGHT)
  {
    assert AUTUMN.Opens(1) == 10 * DAY + HOUR && AUTUMN.Closes(1) == 10 * DAY + 2 * HOUR;
    assert EveryDay.MatchesWeekday(WeekdayOf(10)) && !NeverSetBackAcross(AUTUMN, 10 * DAY + NIGHT);
  }

  /** So a daily window that starts at 01:30 in that zone is fired twice by some run. */
  lemma AutumnNightFiresTwice(env: Env, windowEnd: TimeOfDay, tz: string)
    requires ZoneNamed(env, tz) == AUTUMN && NIGHT < windowEnd
    ensures SomeRunFiresTwice(env, EveryDay, NIGHT, windowEnd, tz)
  {
    AutumnRepeatsNight();
    FiresOnceIffStartKept(env, EveryDay, NIGHT, windowEnd, tz);
  }
}

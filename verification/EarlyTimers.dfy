/** When a firing can be repeated: exactly when the timer went off before its entry was due. */
module EarlyTimers {
  import opened Options
  import opened Triggers
  import opened Zones
  import opened Evaluator
  import opened Occurrences
  import opened IntervalAndCron
  import opened Recurrence
  import opened Queues
  import opened SchedulerModel
  import opened SchedulerSteps
  import opened SchedulerRuns
  import opened LoneTriggers

  /** Some occurrence of some trigger was sent twice. */
  ghost predicate Repeats(sent: seq<TriggerEvent>) {
    exists i, j :: 0 <= i < j < |sent| && IsTimed(sent[i]) && sent[i] == sent[j]
  }

  /** `more` goes on from `turns` with a clock that never goes back and no early timer. */
  ghost predicate GoesOn(env: Env, start: int, turns: seq<Turn>, more: seq<Turn>) {
    more == [] ||
    var n := |more| - 1;
    && GoesOn(env, start, turns, more[..n])
    && ClockOf(start, turns + more[..n]) <= more[n].now
    && Allowed(Run(env, start, turns + more[..n]), more[n])
  }

  lemma {:induction false} RunsJoin(env: Env, start: int, turns: seq<Turn>, more: seq<Turn>)
    requires IsRun(env, start, turns) && GoesOn(env, start, turns, more)
    ensures IsRun(env, start, turns + more)
  {
    hide Run, Allowed;
    if more == [] {
      assert turns + more == turns;
    } else {
      var n := |more| - 1;
      RunsJoin(env, start, turns, more[..n]);
      assert (turns + more)[..|turns| + n] == turns + more[..n];
    }
  }

  lemma NoRepeatInRuns(env: Env, start: int, turns: seq<Turn>)
    requires IsRun(env, start, turns)
    ensures !Repeats(Run(env, start, turns).sent)
  {
    hide IsRun, Run;
    var sent := Run(env, start, turns).sent;
    forall i, j | 0 <= i < j < |sent| && IsTimed(sent[i]) ensures sent[i] != sent[j] {
      if sent[i] == sent[j] { TimedEventsInOrder(env, start, turns, i, j); }
    }
  }

  /** The task with nothing but a one-shot trigger for this entry. */
  function OneShot(e: Entry): Task {
    Lone(e.task, e.trigger, Once(e.at))
  }

  /** Adding the task again with this one-shot trigger makes the entry the first one again. */
  lemma AddedAgainIsFirst(env: Env, s: State, e: Entry, kept: multiset<Entry>, now: int, dice: Dice)
    requires now < e.at && (forall f | f in s.live && f.task != e.task :: Before(e, f))
    ensures var r := AfterAdd(env, s, OneShot(e), now, dice);
            DistinctTriggers(OneShot(e)) && r.live != multiset{} && First(r.live) == e && r.sent == s.sent
  {
    hide Fresh;
    var r := AfterAdd(env, s, OneShot(e), now, dice);
    LoneEntries(env, e.task, e.trigger, Once(e.at), now, dice);
    FirstIsUnique(r.live, e, First(r.live));
  }

  /** After a timer turn every entry of another task is behind the fired one. */
  lemma OthersAreBehind(env: Env, s: State, now: int, dice: Dice)
    requires s.live != multiset{}
    ensures forall f | f in AfterTimer(env, s, now, dice).live
        && f.task != First(s.live).task :: Before(First(s.live), f)
  { }

  lemma EarlyTimerCanRepeat(env: Env, start: int, turns: seq<Turn>, now: int, dice: Dice) returns (more: seq<Turn>)
    requires ClockOf(start, turns) <= now
    requires Run(env, start, turns).live != multiset{} && First(Run(env, start, turns).live).at > now
    ensures var early := turns + [Turn(now, dice, Timer)];
            GoesOn(env, start, early, more) && Repeats(Run(env, start, early + more).sent)
  {
    hide Run, Fresh, Again, AfterAdd, IsFirst, Before, DistinctTriggers;
    var s := Run(env, start, turns);
    var e := First(s.live);
    var timer := Turn(now, dice, Timer);
    var add := Turn(now, dice, AddTask(OneShot(e)));
    var again := Turn(e.at, dice, Timer);
    var early := turns + [timer];
    more := [add, again];
    RunOneMore(env, start, turns, timer);
    RunOneMore(env, start, early, add);
    RunOneMore(env, start, early + [add], again);
    OthersAreBehind(env, s, now, dice);
    AddedAgainIsFirst(env, Run(env, start, early), e, s.live, now, dice);
    assert early + more == early + [add] + [again];
    assert more[..1] == [add] && [add][..0] == [] && early + [] == early;
    assert GoesOn(env, start, early, []);
    assert GoesOn(env, start, early, [add]);
    assert GoesOn(env, start, early, more);
    var sent := Run(env, start, early + more).sent;
    assert sent == s.sent + [EventOf(e)] + [EventOf(e)];
    assert sent[|s.sent|] == sent[|s.sent| + 1] && IsTimed(sent[|s.sent|]);
  }

  /**
   A timer turn at the end of a run can be followed by a repeated firing exactly when it
   came before its entry was due.
   */
  lemma RepeatsIffEarly(env: Env, start: int, turns: seq<Turn>, now: int, dice: Dice)
    requires IsRun(env, start, turns) && ClockOf(start, turns) <= now
    requires Run(env, start, turns).live != multiset{}
    ensures var after := turns + [Turn(now, dice, Timer)];
            (exists more :: GoesOn(env, start, after, more) && Repeats(Run(env, start, after + more).sent))
            <==> First(Run(env, start, turns).live).at > now
  {
    hide Run, Repeats, GoesOn;
    var timer := Turn(now, dice, Timer);
    var after := turns + [timer];
    if First(Run(env, start, turns).live).at > now {
      var more := EarlyTimerCanRepeat(env, start, turns, now, dice);
    } else {
      assert after[..|turns|] == turns;
      assert IsRun(env, start, after);
      forall more | GoesOn(env, start, after, more) ensures !Repeats(Run(env, start, after + more).sent) {
        RunsJoin(env, start, after, more);
        NoRepeatInRuns(env, start, after + more);
      }
    }
  }

  // ---------- without any other command ----------

  /** The occurrence an early timer turn computes for the fired trigger. */
  ghost predicate RequeuedAt(env: Env, s: State, e: Entry, now: int, dice: Dice, at: int) {
    Entry(e.task, e.trigger, at) in Again(env, s.tasks, e, now, dice)
  }

  lemma FiredIsFirstAgain(env: Env, s: State, now: int, dice: Dice)
    requires s.live != multiset{} && OnePerTrigger(s.live)
    requires RequeuedAt(env, s, First(s.live), now, dice, First(s.live).at)
    ensures var r := AfterTimer(env, s, now, dice).live; r != multiset{} && First(r) == First(s.live)
  {
    hide FindTrigger, Next;
    var e := First(s.live);
    var r := AfterTimer(env, s, now, dice).live;
    FirstIsUnique(r, e, First(r));
  }

  /**
   If the timer goes off early and the trigger, asked then, answers the very occurrence
   just fired, the next due timer turn fires it again; no other command is needed.
   */
  lemma EarlyTimerRefires(env: Env, start: int, turns: seq<Turn>, now: int, dice: Dice, dice': Dice)
    requires IsRun(env, start, turns) && ClockOf(start, turns) <= now
    requires var s := Run(env, start, turns);
             && s.live != multiset{} && now < First(s.live).at
             && RequeuedAt(env, s, First(s.live), now, dice, First(s.live).at)
    ensures var s := Run(env, start, turns); var e := First(s.live);
            var early, again := Turn(now, dice, Timer), Turn(e.at, dice', Timer);
            && GoesOn(env, start, turns + [early], [again])
            && Run(env, start, turns + [early] + [again]).sent == s.sent + [EventOf(e), EventOf(e)]
  {
    hide Run, IsRun, Again, First, IsFirst;
    RunKeeps(env, start, turns);
    var s := Run(env, start, turns);
    var e := First(s.live);
    var early, again := Turn(now, dice, Timer), Turn(e.at, dice', Timer);
    FiredIsFirstAgain(env, s, now, dice);
    RunOneMore(env, start, turns, early);
    RunOneMore(env, start, turns + [early], again);
    assert turns + [early] + [] == turns + [early] && [again][..0] == [];
    assert GoesOn(env, start, turns + [early], []);
  }

  /** Every kind that answers the least of a fixed set of instants gives the same answer until it is due. */
  lemma SameAnswerUntilDue(env: Env, kind: TriggerKind, asked: int, rolls: Rolls, now: int, rolls': Rolls)
    requires Next(env, kind, asked, rolls).Some? && asked <= now < Next(env, kind, asked, rolls).value
    requires match kind
             case Once(_) => true
             case Interval(_, startAt) => startAt.Some?
             case Daily(_, tz) => Calm(ZoneNamed(env, tz))
             case Weekly(_, _, tz) => Calm(ZoneNamed(env, tz))
             case _ => false
    ensures Next(env, kind, now, rolls') == Next(env, kind, asked, rolls)
  {
    hide FirstOn, Local, DateOf, Calm, LeastOccurrence, NextInterval;
    var t := Next(env, kind, asked, rolls).value;
    match kind {
      case Once(_) =>
      case Interval(secs, startAt) =>
        if secs == 0 { NoInterval(startAt, asked); }
        var k := IntervalIsLeastGridPoint(secs, startAt.value, asked);
        var l := IntervalIsLeastGridPoint(secs, startAt.value, now);
      case Daily(time, tz) =>
        var z := ZoneNamed(env, tz);
        DailyIsLeastOccurrence(z, time, asked);
        DailyIsLeastOccurrence(z, time, now);
        LeastStaysLeast(z, ALL_DAYS, time, asked, t, now, Next(env, kind, now, rolls').value);
      case Weekly(days, time, tz) =>
        var z := ZoneNamed(env, tz);
        WeeklyIsLeastOccurrence(z, days, time, asked);
        WeeklyIsLeastOccurrence(z, days, time, now);
        LeastStaysLeast(z, days, time, asked, t, now, Next(env, kind, now, rolls').value);
    }
  }

  lemma LeastStaysLeast(z: Zone, days: seq<Weekday>, time: TimeOfDay, asked: int, t: int, now: int, u: int)
    requires LeastOccurrence(z, days, time, asked, t) && LeastOccurrence(z, days, time, now, u)
    requires asked <= now < t
    ensures t == u
  {
    hide Occurs;
  }

  /** A lone trigger: a one-shot fires as often as the timer goes off early. */
  lemma EarlyTimerFiresTwice(env: Env, dice: Dice)
    ensures var add := [Turn(0, dice, AddTask(Lone(1, 7, Once(100))))];
            Run(env, 0, add + [Turn(50, dice, Timer)] + [Turn(60, dice, Timer)]).sent
              == [TriggerEvent(1, Some(7), 100), TriggerEvent(1, Some(7), 100)]
  {
    hide Run, IsRun, Lone;
    var add := [Turn(0, dice, AddTask(Lone(1, 7, Once(100))))];
    LoneAdded(env, 0, 1, 7, Once(100), 0, dice);
    LoneFires(env, 0, add, 1, 7, Once(100), 100, [], 50, dice);
    LoneFires(env, 0, add + [Turn(50, dice, Timer)], 1, 7, Once(100), 100, [TriggerEvent(1, Some(7), 100)], 60, dice);
  }
}

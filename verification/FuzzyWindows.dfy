/** Fuzzy triggers: where a pick lands, that there is always one, and when a window can be hit twice. */
module FuzzyWindows {
  import opened Options
  import opened Zones
  import opened Triggers
  import opened Evaluator
  import opened Occurrences

  function Reading(date: int, time: TimeOfDay): int { date * DAY + time }

  function FuzzyNext(z: Zone, period: FuzzyPeriod, windowStart: TimeOfDay, windowEnd: TimeOfDay,
                     after: int, rolls: Rolls): Option<int>
    requires windowStart < windowEnd
  {
    FirstPick(z, period, windowStart, windowEnd, after, rolls, DateOf(Local(z, after)), 0, FUZZY_DATES)
  }

  /** `t` is what a time inside the window of `date` stands for, and that window is still ahead at `after`. */
  ghost predicate PickedFor(z: Zone, period: FuzzyPeriod, windowStart: TimeOfDay, windowEnd: TimeOfDay,
                            after: int, date: int, t: int) {
    && t > after
    && period.MatchesWeekday(WeekdayOf(date))
    && DateOf(Local(z, after)) <= date && WindowAhead(date, windowStart, Local(z, after))
    && exists picked: TimeOfDay :: windowStart <= picked < windowEnd && StandsFor(z, Reading(date, picked), t)
  }

  lemma {:induction false} PickIsForSomeDate(z: Zone, period: FuzzyPeriod, windowStart: TimeOfDay, windowEnd: TimeOfDay,
                                             after: int, rolls: Rolls, date: int, i: nat, dates: nat) returns (d: int)
    requires windowStart < windowEnd && DateOf(Local(z, after)) <= date
    requires FirstPick(z, period, windowStart, windowEnd, after, rolls, date, i, dates).Some?
    ensures date <= d < date + dates
    ensures PickedFor(z, period, windowStart, windowEnd, after, d,
                      FirstPick(z, period, windowStart, windowEnd, after, rolls, date, i, dates).value)
    decreases dates
  {
    hide Local, DateOf, Resolve, WeekdayOf, StandsFor;
    var picked := Pick(windowStart, windowEnd, rolls(i));
    ResolveIsLeast(z, date * DAY + picked, after);
    if period.MatchesWeekday(WeekdayOf(date)) && WindowAhead(date, windowStart, Local(z, after))
       && Resolve(z, date * DAY + picked, after).Some? {
      d := date;
      assert StandsFor(z, Reading(date, picked), Resolve(z, date * DAY + picked, after).value);
    } else {
      d := PickIsForSomeDate(z, period, windowStart, windowEnd, after, rolls, date + 1, i + 1, dates - 1);
    }
  }

  /** The picked time is skipped, and the first quarter-hour step past it that exists is past the window. */
  ghost predicate Overshoots(z: Zone, date: int, picked: TimeOfDay, windowEnd: TimeOfDay, t: int) {
    Skipped(z, Reading(date, picked))
    && exists step :: 1 <= step <= GAP_STEPS && ShiftedTo(z, Reading(date, picked), step, t)
                      && picked + step * QUARTER >= windowEnd
  }

  ghost predicate PickOvershoots(z: Zone, date: int, windowStart: TimeOfDay, windowEnd: TimeOfDay, t: int) {
    exists picked: TimeOfDay :: windowStart <= picked < windowEnd && Overshoots(z, date, picked, windowEnd, t)
  }

  /**
   In a calm zone a pick is on its window's date and not before the window starts; it is
   at or past the window's end exactly if it overshoots out of a gap.
   */
  lemma PickLandsInWindow(z: Zone, period: FuzzyPeriod, windowStart: TimeOfDay, windowEnd: TimeOfDay,
                          after: int, date: int, t: int)
    requires Calm(z) && PickedFor(z, period, windowStart, windowEnd, after, date, t)
    ensures DateOf(Local(z, t)) == date && date * DAY + windowStart <= Local(z, t)
    ensures windowStart <= TimeOf(Local(z, t))
    ensures TimeOf(Local(z, t)) >= windowEnd <==> PickOvershoots(z, date, windowStart, windowEnd, t)
    ensures PickOvershoots(z, date, windowStart, windowEnd, t) ==>
              exists picked: TimeOfDay :: windowStart <= picked < windowEnd && Skipped(z, Reading(date, picked))
  {
    hide Local, Calm, Overshoots, StandsFor, Skipped;
    var picked: TimeOfDay :| windowStart <= picked < windowEnd && StandsFor(z, Reading(date, picked), t);
    ReadingDate(date, picked);
    CalmReadings(z, date * DAY + picked);
    DateBounds(Local(z, t), date);
    if TimeOf(Local(z, t)) >= windowEnd {
      LatePickOvershoots(z, date, picked, windowEnd, t);
    }
    if PickOvershoots(z, date, windowStart, windowEnd, t) {
      var p: TimeOfDay :| windowStart <= p < windowEnd && Overshoots(z, date, p, windowEnd, t);
      OvershootIsLate(z, date, p, windowEnd, t);
    }
  }

  lemma LatePickOvershoots(z: Zone, date: int, picked: TimeOfDay, windowEnd: TimeOfDay, t: int)
    requires StandsFor(z, Reading(date, picked), t) && picked < windowEnd
    requires DateOf(Local(z, t)) == date && TimeOf(Local(z, t)) >= windowEnd
    ensures Overshoots(z, date, picked, windowEnd, t)
  {
    hide Local, Skipped;
    DateBounds(Local(z, t), date);
    ReadingDate(date, picked);
    var step :| 1 <= step <= GAP_STEPS && ShiftedTo(z, Reading(date, picked), step, t);
    assert picked + step * QUARTER >= windowEnd;
  }

  lemma OvershootIsLate(z: Zone, date: int, picked: TimeOfDay, windowEnd: TimeOfDay, t: int)
    requires Overshoots(z, date, picked, windowEnd, t) && DateOf(Local(z, t)) == date
    ensures TimeOf(Local(z, t)) >= windowEnd && Skipped(z, Reading(date, picked))
  {
    hide Local, Skipped;
    DateBounds(Local(z, t), date);
  }

  /** The clock is never set forward, as in a zone with a fixed offset. */
  predicate GapFree(z: Zone) {
    forall i | 0 < i <= |z.transitions| :: z.Opens(i) <= z.Closes(i)
  }

  lemma GapFreeNeverOvershoots(z: Zone, date: int, windowStart: TimeOfDay, windowEnd: TimeOfDay, t: int)
    requires GapFree(z)
    ensures !PickOvershoots(z, date, windowStart, windowEnd, t)
  {
    hide Local;
    forall picked: TimeOfDay ensures !Overshoots(z, date, picked, windowEnd, t) {
      if Skipped(z, Reading(date, picked)) {
        var i := SkippedLiesInGap(z, Reading(date, picked), |z.transitions|);
        assert false;
      }
    }
  }

  /** Every whole second of the window, and its start in any case, is picked for some random number. */
  lemma PickReachesEverySecond(windowStart: TimeOfDay, windowEnd: TimeOfDay, k: nat)
    requires windowStart < windowEnd && (k == 0 || windowStart + (k + 1) * 1_000_000_000 <= windowEnd)
    ensures exists roll :: Pick(windowStart, windowEnd, roll) == windowStart + k * 1_000_000_000
  {
    var seconds := (windowEnd - windowStart) / SECOND;
    var span := if seconds < 1 then 1 else seconds;
    WholeSecondsFit(windowEnd - windowStart, k);
    SmallIsItsRest(k, span);
    assert Pick(windowStart, windowEnd, k) == windowStart + k * SECOND;
  }

  lemma WholeSecondsFit(span: int, k: nat)
    requires 0 < span && (k == 0 || (k + 1) * 1_000_000_000 <= span)
    ensures k == 0 || k < span / SECOND
  { }

  lemma SmallIsItsRest(k: nat, span: nat)
    requires k < span
    ensures k % span == k
  { }

  /** What one date answers, with the random number drawn for it. */
  function PickOn(z: Zone, period: FuzzyPeriod, windowStart: TimeOfDay, windowEnd: TimeOfDay, after: int,
                  date: int, roll: nat): Option<int>
    requires windowStart < windowEnd
  {
    if period.MatchesWeekday(WeekdayOf(date)) && WindowAhead(date, windowStart, Local(z, after))
    then Resolve(z, date * DAY + Pick(windowStart, windowEnd, roll), after) else None
  }

  lemma {:induction false} FirstPickIsFirst(z: Zone, period: FuzzyPeriod, windowStart: TimeOfDay, windowEnd: TimeOfDay,
                                            after: int, rolls: Rolls, date: int, i: nat, dates: nat)
    requires windowStart < windowEnd
    ensures FirstPick(z, period, windowStart, windowEnd, after, rolls, date, i, dates) == None <==>
              forall k: nat | i <= k < i + dates ::
                PickOn(z, period, windowStart, windowEnd, after, date + k - i, rolls(k)) == None
    decreases dates
  {
    hide Resolve, Local, WeekdayOf, Pick, FirstPick, WindowAhead;
    if dates == 0 {
      NoDatesLeft(z, period, windowStart, windowEnd, after, rolls, date, i);
    } else {
      OneDateLess(z, period, windowStart, windowEnd, after, rolls, date, i, dates);
      assert PickOn(z, period, windowStart, windowEnd, after, date + i - i, rolls(i))
          == PickOn(z, period, windowStart, windowEnd, after, date, rolls(i));
      FirstPickIsFirst(z, period, windowStart, windowEnd, after, rolls, date + 1, i + 1, dates - 1);
      forall k: nat | i + 1 <= k < i + dates
        ensures PickOn(z, period, windowStart, windowEnd, after, date + k - i, rolls(k))
             == PickOn(z, period, windowStart, windowEnd, after, date + 1 + k - (i + 1), rolls(k)) { }
    }
  }

  /** In any zone, today and the thirteen dates after it are asked, each with its own random number. */
  lemma FuzzyDatesAsked(z: Zone, period: FuzzyPeriod, windowStart: TimeOfDay, windowEnd: TimeOfDay,
                        after: int, rolls: Rolls)
    requires windowStart < windowEnd
    ensures var today := DateOf(Local(z, after));
            FuzzyNext(z, period, windowStart, windowEnd, after, rolls) == None <==>
              forall k: nat | k < 14 ::
                PickOn(z, period, windowStart, windowEnd, after, today + k, rolls(k)) == None
  {
    hide PickOn, FirstPick, Local, DateOf;
    var today := DateOf(Local(z, after));
    FirstPickIsFirst(z, period, windowStart, windowEnd, after, rolls, today, 0, 14);
    assert forall k: nat :: PickOn(z, period, windowStart, windowEnd, after, today + k - 0, rolls(k))
                         == PickOn(z, period, windowStart, windowEnd, after, today + k, rolls(k));
  }

  /** A window that the clock has not reached: a later date's, or today's before its start. */
  predicate StillAhead(date: int, windowStart: TimeOfDay, now: int) {
    date * DAY + windowStart > now && DateOf(now) <= date
  }

  lemma AheadMeansAhead(date: int, windowStart: TimeOfDay, now: int)
    requires DateOf(now) <= date
    ensures WindowAhead(date, windowStart, now) <==> StillAhead(date, windowStart, now)
  {
    DateBounds(now, date);
    DateBounds(now, date + 1);
  }

  /** In a calm zone the search passes over no matching date whose window is still ahead. */
  lemma {:induction false} NoWindowPassedOver(z: Zone, period: FuzzyPeriod, windowStart: TimeOfDay,
                                              windowEnd: TimeOfDay, after: int, rolls: Rolls, date: int, i: nat,
                                              dates: nat, d: int)
    requires Calm(z) && windowStart < windowEnd && DateOf(Local(z, after)) <= date
    requires FirstPick(z, period, windowStart, windowEnd, after, rolls, date, i, dates).Some?
    requires date <= d && period.MatchesWeekday(WeekdayOf(d)) && StillAhead(d, windowStart, Local(z, after))
    ensures var r := FirstPick(z, period, windowStart, windowEnd, after, rolls, date, i, dates).value;
            DateOf(Local(z, r)) <= d
    decreases dates
  {
    hide Local, DateOf, Resolve, WeekdayOf, StandsFor, Pick, Calm, FirstPick, StillAhead;
    var picked := Pick(windowStart, windowEnd, rolls(i));
    AheadMeansAhead(date, windowStart, Local(z, after));
    if dates == 0 {
      NoDatesLeft(z, period, windowStart, windowEnd, after, rolls, date, i);
    } else {
      OneDateLess(z, period, windowStart, windowEnd, after, rolls, date, i, dates);
      ResolveIsLeast(z, date * DAY + picked, after);
      ReadingDate(date, picked);
      CalmReadings(z, date * DAY + picked);
      if d == date {
        StillAheadMeans(d, windowStart, Local(z, after));
        AheadStandsAhead(z, date * DAY + picked, after);
      } else if !(period.MatchesWeekday(WeekdayOf(date)) && WindowAhead(date, windowStart, Local(z, after))
                  && Resolve(z, date * DAY + picked, after).Some?) {
        NoWindowPassedOver(z, period, windowStart, windowEnd, after, rolls, date + 1, i + 1, dates - 1, d);
      }
    }
  }

  lemma StillAheadMeans(date: int, windowStart: TimeOfDay, now: int)
    requires StillAhead(date, windowStart, now)
    ensures date * DAY + windowStart > now
  { }

  /** So a fuzzy trigger's next pick is in the earliest matching window the clock has not reached. */
  lemma EarliestWindowIsPicked(z: Zone, period: FuzzyPeriod, windowStart: TimeOfDay, windowEnd: TimeOfDay,
                               after: int, rolls: Rolls, d: int)
    requires Calm(z) && windowStart < windowEnd
    requires period.MatchesWeekday(WeekdayOf(d)) && StillAhead(d, windowStart, Local(z, after))
    ensures var r := FuzzyNext(z, period, windowStart, windowEnd, after, rolls);
            && r.Some? && DateOf(Local(z, r.value)) <= d
            && StillAhead(DateOf(Local(z, r.value)), windowStart, Local(z, after))
  {
    hide Local, DateOf, WeekdayOf, StandsFor, Calm, FirstPick, StillAhead, WindowAhead;
    var today := DateOf(Local(z, after));
    FuzzyAlwaysPicks(z, period, windowStart, windowEnd, after, rolls, WeekdayOf(d));
    StillAheadDate(d, windowStart, Local(z, after));
    NoWindowPassedOver(z, period, windowStart, windowEnd, after, rolls, today, 0, FUZZY_DATES, d);
    var r := FuzzyNext(z, period, windowStart, windowEnd, after, rolls).value;
    var e := PickIsForSomeDate(z, period, windowStart, windowEnd, after, rolls, today, 0, FUZZY_DATES);
    PickLandsInWindow(z, period, windowStart, windowEnd, after, e, r);
    AheadMeansAhead(e, windowStart, Local(z, after));
  }

  lemma StillAheadDate(date: int, windowStart: TimeOfDay, now: int)
    requires StillAhead(date, windowStart, now)
    ensures DateOf(now) <= date
  { }

  /** In a calm zone a period that matches some weekday always has a next pick, within eight dates. */
  lemma FuzzyAlwaysPicks(z: Zone, period: FuzzyPeriod, windowStart: TimeOfDay, windowEnd: TimeOfDay,
                         after: int, rolls: Rolls, w: Weekday)
    requires Calm(z) && windowStart < windowEnd && period.MatchesWeekday(w)
    ensures var today := DateOf(Local(z, after));
            var r := FuzzyNext(z, period, windowStart, windowEnd, after, rolls);
            && r.Some?
            && r == FirstPick(z, period, windowStart, windowEnd, after, rolls, today, 0, 8)
  {
    hide Local, DateOf, Calm, FirstPick, WeekdayOf;
    var today := DateOf(Local(z, after));
    var k := WeekdayWithinAWeek(today, w);
    PickWithin(z, period, windowStart, windowEnd, after, rolls, today, 0, FUZZY_DATES, k);
    PickWithin(z, period, windowStart, windowEnd, after, rolls, today, 0, 8, k);
  }

  lemma {:induction false} PickWithin(z: Zone, period: FuzzyPeriod, windowStart: TimeOfDay, windowEnd: TimeOfDay,
                                      after: int, rolls: Rolls, date: int, i: nat, dates: nat, hit: nat)
    requires Calm(z) && windowStart < windowEnd && hit < dates
    requires DateOf(Local(z, after)) < date + hit && period.MatchesWeekday(WeekdayOf(date + hit))
    ensures FirstPick(z, period, windowStart, windowEnd, after, rolls, date, i, dates).Some?
    ensures FirstPick(z, period, windowStart, windowEnd, after, rolls, date, i, dates)
         == FirstPick(z, period, windowStart, windowEnd, after, rolls, date, i, hit + 1)
    decreases dates
  {
    hide Resolve, Local, DateOf, Calm, WeekdayOf;
    if hit == 0 {
      FutureDatesAreAhead(z, Pick(windowStart, windowEnd, rolls(i)), after, date);
    } else {
      PickWithin(z, period, windowStart, windowEnd, after, rolls, date + 1, i + 1, dates - 1, hit - 1);
    }
  }

  // ---------- at most once per window ----------

  /** On every matching date the clock, once it has reached the window's start, is never set back before it. */
  ghost predicate WindowStartKept(z: Zone, period: FuzzyPeriod, windowStart: TimeOfDay) {
    forall date {:trigger WeekdayOf(date)} | period.MatchesWeekday(WeekdayOf(date)) ::
      NeverSetBackAcross(z, date * DAY + windowStart)
  }

  /** Two picks, the second asked for once the first is due, fall on the same window. */
  ghost predicate HitsTwice(z: Zone, period: FuzzyPeriod, windowStart: TimeOfDay, windowEnd: TimeOfDay,
                            after: int, rolls: Rolls, later: int, rolls': Rolls)
    requires windowStart < windowEnd
  {
    var first := FuzzyNext(z, period, windowStart, windowEnd, after, rolls);
    var second := FuzzyNext(z, period, windowStart, windowEnd, later, rolls');
    && first.Some? && first.value <= later && second.Some?
    && DateOf(Local(z, first.value)) == DateOf(Local(z, second.value))
  }

  /** After a pick of `date` is due, the next pick is for a later date. */
  lemma NextWindowIsLater(z: Zone, period: FuzzyPeriod, windowStart: TimeOfDay, windowEnd: TimeOfDay,
                          date: int, t: int, later: int, next: int, u: int)
    requires WindowStartKept(z, period, windowStart)
    requires period.MatchesWeekday(WeekdayOf(date)) && date * DAY + windowStart <= Local(z, t)
    requires t <= later && PickedFor(z, period, windowStart, windowEnd, later, next, u)
    ensures date < next
  {
    hide Local, WeekdayOf, StandsFor;
    ReachedStaysReached(z, date * DAY + windowStart, t, later);
    DateBounds(Local(z, later), date);
  }

  lemma KeptStartMeansOnce(z: Zone, period: FuzzyPeriod, windowStart: TimeOfDay, windowEnd: TimeOfDay,
                           after: int, rolls: Rolls, later: int, rolls': Rolls)
    requires Calm(z) && windowStart < windowEnd && WindowStartKept(z, period, windowStart)
    ensures !HitsTwice(z, period, windowStart, windowEnd, after, rolls, later, rolls')
  {
    hide Local, WeekdayOf, Calm, FirstPick, DateOf, WindowStartKept;
    if HitsTwice(z, period, windowStart, windowEnd, after, rolls, later, rolls') {
      var first := FuzzyNext(z, period, windowStart, windowEnd, after, rolls).value;
      var second := FuzzyNext(z, period, windowStart, windowEnd, later, rolls').value;
      var today, todayThen := DateOf(Local(z, after)), DateOf(Local(z, later));
      var d := PickIsForSomeDate(z, period, windowStart, windowEnd, after, rolls, today, 0, FUZZY_DATES);
      var e := PickIsForSomeDate(z, period, windowStart, windowEnd, later, rolls', todayThen, 0, FUZZY_DATES);
      PickLandsInWindow(z, period, windowStart, windowEnd, after, d, first);
      PickLandsInWindow(z, period, windowStart, windowEnd, later, e, second);
      NextWindowIsLater(z, period, windowStart, windowEnd, d, first, later, e, second);
      assert false;
    }
  }

  /** A clock change that repeats the start of a matching window lets that window be hit twice. */
  lemma RepeatedStartMeansTwice(z: Zone, period: FuzzyPeriod, windowStart: TimeOfDay, windowEnd: TimeOfDay, date: int,
      i: nat)
    returns (after: int, later: int, rolls: Rolls)
    requires Calm(z) && windowStart < windowEnd && period.MatchesWeekday(WeekdayOf(date))
    requires 0 < i <= |z.transitions| && z.Opens(i) < date * DAY + windowStart < z.Closes(i)
    ensures HitsTwice(z, period, windowStart, windowEnd, after, rolls, later, rolls)
  {
    hide WeekdayOf, FirstPick, Resolve, Local, DateOf, Calm;
    var mark := date * DAY + windowStart;
    rolls := n => 0;
    var first := mark - z.Offset(i - 1);
    after, later := first - 1, z.transitions[i - 1].at;
    SetBackForgets(z, mark, i);
    StartIsInsideDate(z, date, windowStart, i);
    JustBefore(z, mark, i);
    DateBounds(mark - 1, date);
    DateBounds(mark - 1, date + 1);
    PicksStart(z, period, windowStart, windowEnd, after, rolls, date, first);
    PicksStart(z, period, windowStart, windowEnd, later, rolls, date, mark - z.Offset(i));
  }

  lemma StartIsInsideDate(z: Zone, date: int, windowStart: TimeOfDay, i: nat)
    requires Calm(z) && 0 < i <= |z.transitions|
    requires z.Opens(i) < date * DAY + windowStart < z.Closes(i)
    ensures DateOf(z.Opens(i)) == date && 0 < windowStart
  {
    DateBounds(z.Opens(i), date);
    DateBounds(z.Opens(i), date + 1);
    DateBounds(z.Closes(i) - 1, date);
    DateBounds(z.Closes(i) - 1, date + 1);
  }

  lemma JustBefore(z: Zone, mark: int, i: nat)
    requires 0 < i <= |z.transitions| && z.Opens(i) < mark < z.Closes(i)
    ensures Local(z, mark - z.Offset(i - 1) - 1) == mark - 1
  {
    if i > 1 { assert z.transitions[i - 2].at + 2 * DAY <= z.transitions[i - 1].at; }
    assert z.Opens(i) - z.Closes(i) >= -DAY;
    SegmentIs(z, mark - z.Offset(i - 1) - 1, i - 1);
  }

  /** With roll 0 and the window's start ahead on the current date, the pick is on that date. */
  lemma PicksStart(z: Zone, period: FuzzyPeriod, windowStart: TimeOfDay, windowEnd: TimeOfDay,
                   after: int, rolls: Rolls, date: int, t: int)
    requires Calm(z) && windowStart < windowEnd && period.MatchesWeekday(WeekdayOf(date)) && rolls(0) == 0
    requires DateOf(Local(z, after)) == date && Local(z, after) < date * DAY + windowStart
    requires after < t && Local(z, t) == date * DAY + windowStart
    ensures var r := FuzzyNext(z, period, windowStart, windowEnd, after, rolls);
            r.Some? && DateOf(Local(z, r.value)) == date && r.value <= t
  {
    hide Local, Resolve, Calm, WeekdayOf, DateOf, WindowAhead, Pick, StandsFor;
    StartIsAhead(date, windowStart, Local(z, after));
    RollZeroIsStart(windowStart, windowEnd);
    ResolveIsLeast(z, date * DAY + windowStart, after);
    assert StandsFor(z, date * DAY + windowStart, t) by { ShownStandsFor(z, date * DAY + windowStart, t); }
    ReadingDate(date, windowStart);
    CalmReadings(z, date * DAY + windowStart);
  }

  lemma ShownStandsFor(z: Zone, local: int, t: int)
    requires Local(z, t) == local
    ensures StandsFor(z, local, t)
  { }

  lemma StartIsAhead(date: int, windowStart: TimeOfDay, now: int)
    requires DateOf(now) == date && now < date * DAY + windowStart
    ensures WindowAhead(date, windowStart, now)
  {
    DateBounds(now, date);
  }

  lemma RollZeroIsStart(windowStart: TimeOfDay, windowEnd: TimeOfDay)
    requires windowStart < windowEnd
    ensures Pick(windowStart, windowEnd, 0) == windowStart
  { }

  /** Exactly when a window can be hit twice in a calm zone: when some matching window's start is repeated. */
  lemma HitTwiceIffStartRepeats(z: Zone, period: FuzzyPeriod, windowStart: TimeOfDay, windowEnd: TimeOfDay)
    requires Calm(z) && windowStart < windowEnd
    ensures WindowStartKept(z, period, windowStart)
        <==> !exists after, rolls, later, rolls' ::
               HitsTwice(z, period, windowStart, windowEnd, after, rolls, later, rolls')
  {
    hide Calm, HitsTwice, WeekdayOf;
    if WindowStartKept(z, period, windowStart) {
      forall after, rolls, later, rolls'
        ensures !HitsTwice(z, period, windowStart, windowEnd, after, rolls, later, rolls')
      {
        KeptStartMeansOnce(z, period, windowStart, windowEnd, after, rolls, later, rolls');
      }
    } else {
      var date :| period.MatchesWeekday(WeekdayOf(date)) && !NeverSetBackAcross(z, date * DAY + windowStart);
      var i :| 0 < i <= |z.transitions| && z.Opens(i) < date * DAY + windowStart < z.Closes(i);
      var after, later, rolls := RepeatedStartMeansTwice(z, period, windowStart, windowEnd, date, i);
    }
  }
}

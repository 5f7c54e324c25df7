/** What the evaluator's answers mean, for every trigger kind, zone and instant. */
module Occurrences {
  import opened Options
  import opened Zones
  import opened Triggers
  import opened Evaluator

  // ---------- the instants a wall-clock reading stands for ----------

  ghost predicate Skipped(z: Zone, local: int) {
    forall t :: Local(z, t) != local
  }

  /** `t` is the earliest instant of the first quarter-hour step after `local` that exists. */
  ghost predicate ShiftedTo(z: Zone, local: int, step: nat, t: int) {
    && Local(z, t) == local + step * QUARTER
    && (forall i | 1 <= i < step :: Skipped(z, local + i * QUARTER))
    && (forall u :: Local(z, u) == Local(z, t) ==> t <= u)
  }

  ghost predicate ShiftedWithin(z: Zone, local: int, steps: nat, t: int) {
    exists step :: 1 <= step <= steps && ShiftedTo(z, local, step, t)
  }

  /** The clock shows `local` at `t`, or `local` is skipped and `t` is where it is shifted to. */
  ghost predicate StandsFor(z: Zone, local: int, t: int) {
    || Local(z, t) == local
    || (Skipped(z, local) && ShiftedWithin(z, local, GAP_STEPS, t))
  }

  lemma {:induction false} FirstAfterGapIsFirst(z: Zone, local: int, steps: nat)
    ensures match FirstAfterGap(z, local, steps)
            case Some(t) => ShiftedWithin(z, local, steps, t)
            case None => forall i | 1 <= i <= steps :: Skipped(z, local + i * QUARTER)
    decreases steps
  {
    hide FromLocal, Local;
    if steps > 0 {
      var next := local + QUARTER;
      FromLocalIsExact(z, next);
      FirstAfterGapIsFirst(z, next, steps - 1);
      match FromLocal(z, next) {
        case Single(t) =>
          assert ShiftedTo(z, local, 1, t);
        case Ambiguous(t, _) =>
          assert ShiftedTo(z, local, 1, t);
        case Gap =>
          assert Skipped(z, next);
          match FirstAfterGap(z, next, steps - 1) {
            case Some(t) =>
              var step :| 1 <= step <= steps - 1 && ShiftedTo(z, next, step, t);
              OneStepEarlier(z, local, step, t);
            case None =>
              forall i | 1 <= i <= steps ensures Skipped(z, local + i * QUARTER) {
                if i > 1 { assert Skipped(z, next + (i - 1) * QUARTER); }
              }
          }
      }
    }
  }

  lemma OneStepEarlier(z: Zone, local: int, step: nat, t: int)
    requires Skipped(z, local + QUARTER)
    requires ShiftedTo(z, local + QUARTER, step, t)
    ensures ShiftedTo(z, local, step + 1, t)
  {
    hide Local;
    forall i | 1 <= i < step + 1 ensures Skipped(z, local + i * QUARTER) {
      if i > 1 { assert Skipped(z, local + QUARTER + (i - 1) * QUARTER); }
    }
  }

  lemma ShiftIsUnique(z: Zone, local: int, i: nat, t: int, j: nat, u: int)
    requires 1 <= i <= j
    requires ShiftedTo(z, local, i, t) && ShiftedTo(z, local, j, u)
    ensures t == u
  {
    hide Local;
    assert !Skipped(z, local + i * QUARTER);
  }

  ghost predicate IsLeastAfter(z: Zone, local: int, after: int, r: Option<int>) {
    match r
    case Some(t) => t > after && StandsFor(z, local, t) && forall u | StandsFor(z, local, u) && u > after :: t <= u
    case None => forall u | StandsFor(z, local, u) :: u <= after
  }

  /** `Resolve` finds the least instant after `after` that the reading stands for, if there is one. */
  lemma ResolveIsLeast(z: Zone, local: int, after: int)
    ensures IsLeastAfter(z, local, after, Resolve(z, local, after))
  {
    hide FromLocal, Local, FirstAfterGap;
    FromLocalIsExact(z, local);
    match FromLocal(z, local) {
      case Single(t) =>
        assert StandsFor(z, local, t);
      case Ambiguous(e, l) =>
        assert StandsFor(z, local, e) && StandsFor(z, local, l);
      case Gap =>
        assert Skipped(z, local);
        FirstAfterGapIsFirst(z, local, GAP_STEPS);
        match FirstAfterGap(z, local, GAP_STEPS) {
          case Some(t) =>
            var i :| 1 <= i <= GAP_STEPS && ShiftedTo(z, local, i, t);
            assert StandsFor(z, local, t);
            forall u | StandsFor(z, local, u) ensures u == t {
              var j :| 1 <= j <= GAP_STEPS && ShiftedTo(z, local, j, u);
              if i <= j { ShiftIsUnique(z, local, i, t, j, u); } else { ShiftIsUnique(z, local, j, u, i, t); }
            }
          case None =>
            forall u ensures !StandsFor(z, local, u) {
              assert Local(z, u) != local;
              forall j | 1 <= j <= GAP_STEPS ensures !ShiftedTo(z, local, j, u) {
                assert Skipped(z, local + j * QUARTER);
              }
            }
        }
    }
  }

  // ---------- calm zones ----------

  lemma StepsToCover(left: int) returns (step: nat)
    requires 0 < left <= 2 * HOUR
    ensures 1 <= step <= GAP_STEPS
    ensures left <= step * QUARTER < left + QUARTER
  {
    step := (left + QUARTER - 1) / QUARTER;
  }

  /** The first quarter-hour step past the end of a gap exists, and is on the same date. */
  lemma GapEnds(z: Zone, local: int) returns (step: nat, landed: int)
    requires Calm(z) && Skipped(z, local)
    ensures 1 <= step <= GAP_STEPS
    ensures Local(z, landed) == local + step * QUARTER
    ensures DateOf(local + step * QUARTER) == DateOf(local)
  {
    hide DateOf, SegmentAt;
    var i := SkippedLiesInGap(z, local, |z.transitions|);
    step := StepsToCover(z.Opens(i) - local);
    var reading := local + step * QUARTER;
    landed := reading - z.Offset(i);
    assert i < |z.transitions| ==> z.transitions[i - 1].at + 2 * DAY <= z.transitions[i].at;
    SegmentIs(z, landed, i);
    DateOrder(z.Closes(i), local);
    DateOrder(local, reading);
    DateOrder(reading, z.Opens(i) + QUARTER - 1);
  }

  lemma DateOrder(a: int, b: int)
    requires a <= b
    ensures DateOf(a) <= DateOf(b)
  { }

  lemma ShiftStaysOnDate(z: Zone, local: int, step: nat, landed: int, t: int)
    requires Skipped(z, local) && StandsFor(z, local, t)
    requires Local(z, landed) == local + step * QUARTER && DateOf(local + step * QUARTER) == DateOf(local) && step >= 1
    ensures local <= Local(z, t) && DateOf(Local(z, t)) == DateOf(local)
  {
    hide Local, DateOf;
    assert Local(z, t) != local;
    var i :| 1 <= i <= GAP_STEPS && ShiftedTo(z, local, i, t);
    if step < i { assert Skipped(z, local + step * QUARTER); }
    DateOrder(local, local + i * QUARTER);
    DateOrder(local + i * QUARTER, local + step * QUARTER);
  }

  /** In a calm zone every reading stands for some instant, and only for instants of its own date. */
  lemma CalmReadings(z: Zone, local: int)
    requires Calm(z)
    ensures exists t :: StandsFor(z, local, t)
    ensures forall t | StandsFor(z, local, t) :: local <= Local(z, t) && DateOf(Local(z, t)) == DateOf(local)
  {
    hide Local, DateOf, Calm;
    if Skipped(z, local) {
      var step, landed := GapEnds(z, local);
      FirstAfterGapIsFirst(z, local, GAP_STEPS);
      assert !Skipped(z, local + step * QUARTER);
      assert StandsFor(z, local, FirstAfterGap(z, local, GAP_STEPS).value);
      forall t | StandsFor(z, local, t)
        ensures local <= Local(z, t) && DateOf(Local(z, t)) == DateOf(local)
      {
        ShiftStaysOnDate(z, local, step, landed, t);
      }
    } else {
      var t :| Local(z, t) == local;
      assert StandsFor(z, local, t);
    }
  }

  // ---------- readings still ahead ----------

  /** The clock comes to a reading it has not reached, or skips it at a change still to come. */
  ghost predicate ComesOrIsSkipped(z: Zone, local: int, after: int) {
    || (exists t :: t > after && Local(z, t) == local)
    || (exists i :: 0 < i <= |z.transitions| && z.transitions[i - 1].at > after && z.Closes(i) <= local < z.Opens(i))
  }

  lemma {:induction false} ReadingComes(z: Zone, local: int, after: int, k: nat)
    requires SegmentAt(z, after) <= k <= |z.transitions|
    requires if k == SegmentAt(z, after) then Local(z, after) < local
             else z.transitions[k - 1].at > after && z.Opens(k) <= local
    ensures ComesOrIsSkipped(z, local, after)
    decreases |z.transitions| - k
  {
    var t := local - z.Offset(k);
    if k == |z.transitions| || t < z.transitions[k].at {
      SegmentIs(z, t, k);
      assert t > after && Local(z, t) == local;
    } else if local < z.Opens(k + 1) {
      assert z.transitions[k].at > after && z.Closes(k + 1) <= local < z.Opens(k + 1);
    } else {
      ReadingComes(z, local, after, k + 1);
    }
  }

  /** In a calm zone a reading ahead of the clock stands for an instant ahead. */
  lemma AheadStandsAhead(z: Zone, local: int, after: int)
    requires Calm(z) && Local(z, after) < local
    ensures Resolve(z, local, after).Some?
  {
    hide Local, Calm, Resolve, DateOf;
    ReadingComes(z, local, after, SegmentAt(z, after));
    CalmReadings(z, local);
    ResolveIsLeast(z, local, after);
    var u :| StandsFor(z, local, u);
    if u <= after {
      if t :| t > after && Local(z, t) == local {
        assert StandsFor(z, local, t);
      } else {
        var i :| 0 < i <= |z.transitions| && z.transitions[i - 1].at > after && z.Closes(i) <= local < z.Opens(i);
        BeforeChangeIsBehind(z, u, i);
        assert false;
      }
    }
  }

  lemma BeforeChangeIsBehind(z: Zone, u: int, i: nat)
    requires 0 < i <= |z.transitions| && u < z.transitions[i - 1].at
    ensures Local(z, u) < z.Closes(i)
  {
    hide Local;
    if SegmentAt(z, u) >= i { SegmentMonotoneAt(z, u, i); }
    ClosingsGrow(z, u, i);
  }

  lemma SegmentMonotoneAt(z: Zone, u: int, i: nat)
    requires 0 < i <= SegmentAt(z, u)
    ensures z.transitions[i - 1].at <= u
  {
    var k := SegmentAt(z, u);
    if i < k { assert z.transitions[i - 1].at + 2 * DAY <= z.transitions[k - 1].at; }
  }

  // ---------- Daily and Weekly ----------

  ghost predicate StandsOn(z: Zone, days: seq<Weekday>, time: TimeOfDay, date: int, t: int) {
    WeekdayOf(date) in days && StandsFor(z, date * DAY + time, t)
  }

  ghost predicate Occurs(z: Zone, days: seq<Weekday>, time: TimeOfDay, t: int) {
    exists date :: StandsOn(z, days, time, date, t)
  }

  /** `t` is the least occurrence strictly after `after`, over all dates. */
  ghost predicate LeastOccurrence(z: Zone, days: seq<Weekday>, time: TimeOfDay, after: int, t: int) {
    && t > after
    && Occurs(z, days, time, t)
    && forall u :: Occurs(z, days, time, u) && u > after ==> t <= u
  }

  lemma ReadingDate(date: int, time: TimeOfDay)
    ensures DateOf(date * DAY + time) == date && TimeOf(date * DAY + time) == time
  { }

  /** Occurrences of an earlier date come earlier. */
  lemma DatesOrderOccurrences(z: Zone, local: int, t: int, later: int, u: int)
    requires Calm(z)
    requires StandsFor(z, local, t) && StandsFor(z, later, u)
    requires DateOf(local) < DateOf(later)
    ensures t < u
  {
    hide Local, DateOf, Calm;
    CalmReadings(z, local);
    CalmReadings(z, later);
    if u <= t { DatesNeverGoBack(z, u, t); }
  }

  lemma PastDatesAreOver(z: Zone, days: seq<Weekday>, time: TimeOfDay, after: int, date: int, t: int)
    requires Calm(z) && date < DateOf(Local(z, after)) && StandsOn(z, days, time, date, t)
    ensures t <= after
  {
    hide Local, DateOf, Calm;
    ReadingDate(date, time);
    CalmReadings(z, date * DAY + time);
    if after < t { DatesNeverGoBack(z, after, t); }
  }

  lemma FutureDatesAreAhead(z: Zone, time: TimeOfDay, after: int, date: int)
    requires Calm(z) && DateOf(Local(z, after)) < date
    ensures Resolve(z, date * DAY + time, after).Some?
  {
    hide Local, DateOf, Calm, Resolve;
    ReadingDate(date, time);
    CalmReadings(z, date * DAY + time);
    var t :| StandsFor(z, date * DAY + time, t);
    if t <= after { DatesNeverGoBack(z, t, after); }
    ResolveIsLeast(z, date * DAY + time, after);
  }

  lemma {:induction false} SearchIsLeast(z: Zone, days: seq<Weekday>, time: TimeOfDay, after: int, date: int,
      dates: nat)
    requires Calm(z)
    requires forall d, t :: d < date && StandsOn(z, days, time, d, t) ==> t <= after
    ensures var r := FirstOn(z, days, time, after, date, dates);
            r.Some? ==> LeastOccurrence(z, days, time, after, r.value)
    decreases dates
  {
    hide Resolve, StandsFor, Calm, WeekdayOf;
    if dates > 0 {
      var r := Resolve(z, date * DAY + time, after);
      ResolveIsLeast(z, date * DAY + time, after);
      if WeekdayOf(date) in days && r.Some? {
        assert StandsOn(z, days, time, date, r.value);
        forall u | Occurs(z, days, time, u) && u > after ensures r.value <= u {
          var d :| StandsOn(z, days, time, d, u);
          if date < d {
            ReadingDate(date, time);
            ReadingDate(d, time);
            DatesOrderOccurrences(z, date * DAY + time, r.value, d * DAY + time, u);
          }
        }
      } else {
        SearchIsLeast(z, days, time, after, date + 1, dates - 1);
      }
    }
  }

  lemma {:induction false} SearchSucceeds(z: Zone, days: seq<Weekday>, time: TimeOfDay, after: int,
                                          date: int, dates: nat, hit: nat)
    requires Calm(z) && hit < dates
    requires DateOf(Local(z, after)) < date + hit && WeekdayOf(date + hit) in days
    ensures FirstOn(z, days, time, after, date, dates).Some?
    ensures FirstOn(z, days, time, after, date, dates) == FirstOn(z, days, time, after, date, hit + 1)
    decreases dates
  {
    hide Resolve, Local, DateOf, Calm, WeekdayOf;
    if hit == 0 {
      FutureDatesAreAhead(z, time, after, date);
    } else {
      SearchSucceeds(z, days, time, after, date + 1, dates - 1, hit - 1);
    }
  }

  lemma WeekdayWithinAWeek(date: int, w: Weekday) returns (k: nat)
    ensures 1 <= k <= 7 && WeekdayOf(date + k) == w
  {
    k := (w - date - 4) % 7 + 1;
    assert (date + k + 3) % 7 == w;
  }

  /** Weekly: in a calm zone a non-empty day list always has a next occurrence, found within eight dates. */
  lemma WeeklyIsLeastOccurrence(z: Zone, days: seq<Weekday>, time: TimeOfDay, after: int)
    requires Calm(z) && days != []
    ensures var today := DateOf(Local(z, after));
            var r := FirstOn(z, days, time, after, today, WEEKLY_DATES);
            && r.Some? && LeastOccurrence(z, days, time, after, r.value)
            && r == FirstOn(z, days, time, after, today, 8)
  {
    hide Local, DateOf, Calm, FirstOn, WeekdayOf, StandsFor;
    var today := DateOf(Local(z, after));
    var k := WeekdayWithinAWeek(today, days[0]);
    SearchSucceeds(z, days, time, after, today, WEEKLY_DATES, k);
    SearchSucceeds(z, days, time, after, today, 8, k);
    forall d, t | d < today && StandsOn(z, days, time, d, t) ensures t <= after {
      PastDatesAreOver(z, days, time, after, d, t);
    }
    SearchIsLeast(z, days, time, after, today, WEEKLY_DATES);
  }

  /** Daily: in a calm zone there is always a next occurrence, found today or tomorrow. */
  lemma DailyIsLeastOccurrence(z: Zone, time: TimeOfDay, after: int)
    requires Calm(z)
    ensures var today := DateOf(Local(z, after));
            var r := FirstOn(z, ALL_DAYS, time, after, today, DAILY_DATES);
            && r.Some? && LeastOccurrence(z, ALL_DAYS, time, after, r.value)
            && r == FirstOn(z, ALL_DAYS, time, after, today, 2)
  {
    hide Local, DateOf, Calm, FirstOn, WeekdayOf, StandsFor;
    var today := DateOf(Local(z, after));
    EveryDayIsListed(WeekdayOf(today + 1));
    SearchSucceeds(z, ALL_DAYS, time, after, today, DAILY_DATES, 1);
    SearchSucceeds(z, ALL_DAYS, time, after, today, 2, 1);
    forall d, t | d < today && StandsOn(z, ALL_DAYS, time, d, t) ensures t <= after {
      PastDatesAreOver(z, ALL_DAYS, time, after, d, t);
    }
    SearchIsLeast(z, ALL_DAYS, time, after, today, DAILY_DATES);
  }
}

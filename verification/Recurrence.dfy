/** Every next occurrence is strictly in the future, and which kinds always have one. */
module Recurrence {
  import opened Options
  import opened Zones
  import opened Triggers
  import opened Evaluator
  import opened Occurrences
  import opened IntervalAndCron
  import opened FuzzyWindows
  import opened CronLexer

  lemma {:induction false} FirstOnIsAfter(z: Zone, days: seq<Weekday>, time: TimeOfDay, after: int, date: int,
      dates: nat)
    requires FirstOn(z, days, time, after, date, dates).Some?
    ensures FirstOn(z, days, time, after, date, dates).value > after
    decreases dates
  {
    hide Resolve, WeekdayOf;
    ResolveIsLeast(z, date * DAY + time, after);
    if !(WeekdayOf(date) in days && Resolve(z, date * DAY + time, after).Some?) {
      FirstOnIsAfter(z, days, time, after, date + 1, dates - 1);
    }
  }

  lemma {:induction false} CronFromIsAfter(find: Matcher, z: Zone, after: int, anchor: int, rounds: nat)
    requires CronFrom(find, z, after, anchor, rounds).Some?
    ensures CronFrom(find, z, after, anchor, rounds).value > after
    decreases rounds
  {
    match find(z, anchor)
    case Found(c) => if c <= after { CronFromIsAfter(find, z, after, c, rounds - 1); }
    case InvalidTime => CronFromIsAfter(find, z, after, anchor + HOUR, rounds - 1);
    case NoMatch =>
  }

  lemma IntervalIsAfter(secs: nat, startAt: Option<int>, after: int)
    requires 0 < secs
    ensures NextInterval(secs, startAt, after).Some? && NextInterval(secs, startAt, after).value > after
  {
    match startAt
    case Some(start) =>
      var k := IntervalIsLeastGridPoint(secs, start, after);
    case None =>
      var k := IntervalIsLeastGridPoint(secs, after, after);
  }

  /** No kind, zone, cron library or roll ever yields an occurrence that is not strictly after `after`. */
  lemma NextIsAfter(env: Env, kind: TriggerKind, after: int, rolls: Rolls)
    requires Next(env, kind, after, rolls).Some?
    ensures Next(env, kind, after, rolls).value > after
  {
    hide FirstOn, FirstPick, CronFrom, NextInterval, Local, DateOf, IsStandardExpression;
    match kind {
      case Once(_) =>
      case Network =>
      case AgentStarted =>
      case Interval(secs, startAt) =>
        if secs > 0 { IntervalIsAfter(secs, startAt, after); } else { NoInterval(startAt, after); }
      case Daily(time, tz) =>
        var z := ZoneNamed(env, tz);
        FirstOnIsAfter(z, ALL_DAYS, time, after, DateOf(Local(z, after)), DAILY_DATES);
      case Weekly(days, time, tz) =>
        var z := ZoneNamed(env, tz);
        FirstOnIsAfter(z, days, time, after, DateOf(Local(z, after)), WEEKLY_DATES);
      case Cron(fields, tz) =>
        CronFromIsAfter(env.cron(fields).value, ZoneNamed(env, tz), after, after, CRON_ROUNDS);
      case Fuzzy(period, start, end, tz) =>
        var z := ZoneNamed(env, tz);
        var d := PickIsForSomeDate(z, period, start, end, after, rolls, DateOf(Local(z, after)), 0, FUZZY_DATES);
    }
  }

  lemma NoInterval(startAt: Option<int>, after: int)
    ensures NextInterval(0, startAt, after) == None
  { }

  /** Asked at any instant up to `until`, the kind has a next occurrence. */
  ghost predicate HasNextUntil(env: Env, kind: TriggerKind, until: int) {
    forall after, rolls | after <= until :: Next(env, kind, after, rolls).Some?
  }

  /**
   A positive interval, or a calendar rule with a matching weekday (or minute) in a
   well-behaved zone. A cron library need find matches only for anchors up to `until`.
   */
  ghost predicate Recurs(env: Env, kind: TriggerKind, until: int) {
    match kind
    case Interval(secs, _) => secs > 0
    case Daily(_, tz) => Calm(ZoneNamed(env, tz))
    case Weekly(days, _, tz) => days != [] && Calm(ZoneNamed(env, tz))
    case Fuzzy(period, start, end, tz) =>
      start < end && Calm(ZoneNamed(env, tz)) && exists w :: period.MatchesWeekday(w)
    case Cron(fields, tz) =>
      && IsStandardExpression(fields) && env.cron(fields).Some?
      && RepeatsAtMostTwoHours(ZoneNamed(env, tz))
      && exists matches :: FindsNextMinute(env.cron(fields).value, ZoneNamed(env, tz), matches, until)
    case Once(_) => false
    case Network => false
    case AgentStarted => false
  }

  /** Such kinds do not stop being scheduled before then. */
  lemma RecurringKindsAlwaysHaveNext(env: Env, kind: TriggerKind, until: int)
    requires Recurs(env, kind, until)
    ensures HasNextUntil(env, kind, until)
  {
    hide FirstOn, FirstPick, CronFrom, NextInterval, Local, DateOf, IsStandardExpression, Calm;
    forall after, rolls | after <= until ensures Next(env, kind, after, rolls).Some? {
      match kind {
        case Interval(secs, startAt) => IntervalIsAfter(secs, startAt, after);
        case Daily(time, tz) => DailyIsLeastOccurrence(ZoneNamed(env, tz), time, after);
        case Weekly(days, time, tz) => WeeklyIsLeastOccurrence(ZoneNamed(env, tz), days, time, after);
        case Fuzzy(period, start, end, tz) =>
          var w :| period.MatchesWeekday(w);
          FuzzyAlwaysPicks(ZoneNamed(env, tz), period, start, end, after, rolls, w);
        case Cron(fields, tz) =>
          var matches :| FindsNextMinute(env.cron(fields).value, ZoneNamed(env, tz), matches, until);
          CronIsLeastMatch(env.cron(fields).value, ZoneNamed(env, tz), matches, after);
      }
    }
  }

  // ---------- how far the searches go ----------

  /** What the reading of one date answers, if its weekday is asked for. */
  function OnDate(z: Zone, days: seq<Weekday>, time: TimeOfDay, after: int, date: int): Option<int> {
    if WeekdayOf(date) in days then Resolve(z, date * DAY + time, after) else None
  }

  /** The search answers for the first of its dates that has an answer, and nothing if none has. */
  lemma {:induction false} FirstOnIsFirst(z: Zone, days: seq<Weekday>, time: TimeOfDay, after: int, date: int,
                                          dates: nat)
    ensures var r := FirstOn(z, days, time, after, date, dates);
            && (r == None <==> forall d | date <= d < date + dates :: OnDate(z, days, time, after, d) == None)
            && (r.Some? ==> exists d :: date <= d < date + dates && OnDate(z, days, time, after, d) == r
                              && forall e | date <= e < d :: OnDate(z, days, time, after, e) == None)
    decreases dates
  {
    hide Resolve, WeekdayOf;
    if dates > 0 {
      FirstOnIsFirst(z, days, time, after, date + 1, dates - 1);
      if OnDate(z, days, time, after, date).Some? {
        assert FirstOn(z, days, time, after, date, dates) == OnDate(z, days, time, after, date);
      } else {
        assert FirstOn(z, days, time, after, date, dates) == FirstOn(z, days, time, after, date + 1, dates - 1);
      }
    }
  }

  /** In any zone, daily asks today and the three dates after it, weekly today and thirteen more. */
  lemma DatesAsked(env: Env, kind: TriggerKind, after: int, rolls: Rolls)
    requires kind.Daily? || kind.Weekly?
    ensures var z, today := ZoneNamed(env, kind.timezone), DateOf(Local(ZoneNamed(env, kind.timezone), after));
            var days, dates := if kind.Daily? then ALL_DAYS else kind.days, if kind.Daily? then 4 else 14;
            Next(env, kind, after, rolls) == None <==>
              forall d | today <= d < today + dates :: OnDate(z, days, kind.time, after, d) == None
  {
    hide Resolve, WeekdayOf, Local, DateOf, FirstOn;
    var z := ZoneNamed(env, kind.timezone);
    var days, dates := if kind.Daily? then ALL_DAYS else kind.days, if kind.Daily? then 4 else 14;
    FirstOnIsFirst(z, days, kind.time, after, DateOf(Local(z, after)), dates);
    if days == [] {
      assert forall d :: OnDate(z, days, kind.time, after, d) == None;
    }
  }

  /** Cron asks its library 240 times: that many anchors in a row called invalid end it, one fewer does not. */
  lemma CronAsksTwoHundredForty(env: Env, fields: seq<seq<byte>>, tz: string, find: Matcher, after: int, rolls: Rolls,
                                hours: nat)
    requires |fields| == 5 && forall i :: 0 <= i < 5 ==> IsStandardField(fields[i], i == 3, i == 4)
    requires env.cron(fields) == Some(find)
    requires forall k: nat | k < hours :: find(ZoneNamed(env, tz), after + k * 3_600 * 1_000_000_000) == InvalidTime
    ensures hours == 240 ==> Next(env, Cron(fields, tz), after, rolls) == None
    ensures hours < 240 ==>
              match find(ZoneNamed(env, tz), after + hours * 3_600 * 1_000_000_000)
              case Found(c) => c > after ==> Next(env, Cron(fields, tz), after, rolls) == Some(c)
              case NoMatch => Next(env, Cron(fields, tz), after, rolls) == None
              case InvalidTime => true
  {
    hide CronFrom, IsStandardField;
    var z := ZoneNamed(env, tz);
    if hours == 240 {
      assert find(z, after + 239 * 3_600 * 1_000_000_000) == InvalidTime;
      InvalidAnchorsAreSteppedOver(find, z, after, after, 240, 239);
    } else if hours < 240 {
      InvalidAnchorsAreSteppedOver(find, z, after, after, 240, hours);
    }
  }
}

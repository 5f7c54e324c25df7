/** When a trigger fires next: the evaluator's functions, and its search loops proved against them. */
module Evaluator {
  import opened Options
  import opened Zones
  import opened Triggers
  import opened CronLexer

  const DAILY_DATES: nat := 4
  const WEEKLY_DATES: nat := 14
  const FUZZY_DATES: nat := 14
  const GAP_STEPS: nat := 8
  const CRON_ROUNDS: nat := 240

  /** The cron library's answer: a match, an anchor inside a gap, or any other error. */
  datatype MatchResult = Found(candidate: int) | InvalidTime | NoMatch

  type Matcher = (Zone, int) -> MatchResult

  /** The time zone database and the cron library. */
  datatype Env = Env(zones: string -> Option<Zone>, cron: seq<seq<byte>> -> Option<Matcher>)

  /** The random generator: one raw number per searched date. */
  type Rolls = nat -> nat

  function ZoneNamed(env: Env, timezone: string): Zone {
    match env.zones(timezone)
    case Some(z) => z
    case None => UTC
  }

  // ---------- one wall-clock reading ----------

  function FirstAfterGap(z: Zone, local: int, steps: nat): Option<int>
    decreases steps
  {
    if steps == 0 then None
    else
      match FromLocal(z, local + QUARTER)
      case Single(t) => Some(t)
      case Ambiguous(t, _) => Some(t)
      case Gap => FirstAfterGap(z, local + QUARTER, steps - 1)
  }

  /** The first instant after `after` that the reading `local` stands for. */
  function Resolve(z: Zone, local: int, after: int): Option<int> {
    match FromLocal(z, local)
    case Single(t) => if t > after then Some(t) else None
    case Ambiguous(e, l) => if e > after then Some(e) else if l > after then Some(l) else None
    case Gap =>
      var t := FirstAfterGap(z, local, GAP_STEPS);
      if t.Some? && t.value > after then t else None
  }

  method ShiftOutOfGap(z: Zone, local: int, steps: nat) returns (r: Option<int>)
    ensures r == FirstAfterGap(z, local, steps)
  {
    hide FromLocal;
    var shifted := local;
    for i := 0 to steps
      invariant FirstAfterGap(z, local, steps) == FirstAfterGap(z, shifted, steps - i)
    {
      shifted := shifted + QUARTER;
      match FromLocal(z, shifted) {
        case Single(t) => return Some(t);
        case Ambiguous(t, _) => return Some(t);
        case Gap =>
      }
    }
    return None;
  }

  method ResolveCandidate(z: Zone, date: int, time: TimeOfDay, after: int) returns (r: Option<int>)
    ensures r == Resolve(z, date * DAY + time, after)
  {
    hide FromLocal;
    match FromLocal(z, date * DAY + time) {
      case Single(t) =>
        if t > after { return Some(t); }
        return None;
      case Ambiguous(e, l) =>
        if e > after { return Some(e); }
        if l > after { return Some(l); }
        return None;
      case Gap =>
        var shifted := ShiftOutOfGap(z, date * DAY + time, GAP_STEPS);
        if shifted.Some? && shifted.value > after { return shifted; }
        return None;
    }
  }

  // ---------- date searches ----------

  function FirstOn(z: Zone, days: seq<Weekday>, time: TimeOfDay, after: int, date: int, dates: nat): Option<int>
    decreases dates
  {
    if dates == 0 then None
    else
      var r := if WeekdayOf(date) in days then Resolve(z, date * DAY + time, after) else None;
      if r.Some? then r else FirstOn(z, days, time, after, date + 1, dates - 1)
  }

  method NextDaily(z: Zone, time: TimeOfDay, after: int) returns (r: Option<int>)
    ensures r == FirstOn(z, ALL_DAYS, time, after, DateOf(Local(z, after)), DAILY_DATES)
  {
    hide Resolve;
    var date := DateOf(Local(z, after));
    for i := 0 to DAILY_DATES
      invariant date == DateOf(Local(z, after)) + i
      invariant FirstOn(z, ALL_DAYS, time, after, DateOf(Local(z, after)), DAILY_DATES)
             == FirstOn(z, ALL_DAYS, time, after, date, DAILY_DATES - i)
    {
      EveryDayIsListed(WeekdayOf(date));
      r := ResolveCandidate(z, date, time, after);
      if r.Some? { return; }
      date := date + 1;
    }
    return None;
  }

  method NextWeekly(z: Zone, days: seq<Weekday>, time: TimeOfDay, after: int) returns (r: Option<int>)
    ensures r == if days == [] then None else FirstOn(z, days, time, after, DateOf(Local(z, after)), WEEKLY_DATES)
  {
    hide Resolve;
    if days == [] { return None; }
    var date := DateOf(Local(z, after));
    for i := 0 to WEEKLY_DATES
      invariant date == DateOf(Local(z, after)) + i
      invariant FirstOn(z, days, time, after, DateOf(Local(z, after)), WEEKLY_DATES)
             == FirstOn(z, days, time, after, date, WEEKLY_DATES - i)
    {
      if WeekdayOf(date) in days {
        r := ResolveCandidate(z, date, time, after);
        if r.Some? { return; }
      }
      date := date + 1;
    }
    return None;
  }

  /** A random time in the window: the start plus a whole number of seconds below the window's span. */
  function Pick(windowStart: TimeOfDay, windowEnd: TimeOfDay, roll: nat): (picked: TimeOfDay)
    requires windowStart < windowEnd
    ensures windowStart <= picked < windowEnd
  {
    var seconds := (windowEnd - windowStart) / SECOND;
    var span := if seconds < 1 then 1 else seconds;
    assert roll % span < span;
    windowStart + (roll % span) * SECOND
  }

  /** Whether the window of `date` still lies ahead when the wall clock shows `now`. */
  predicate WindowAhead(date: int, windowStart: TimeOfDay, now: int) {
    date > DateOf(now) || windowStart > TimeOf(now)
  }

  function FirstPick(z: Zone, period: FuzzyPeriod, windowStart: TimeOfDay, windowEnd: TimeOfDay,
                     after: int, rolls: Rolls, date: int, i: nat, dates: nat): Option<int>
    requires windowStart < windowEnd
    decreases dates
  {
    if dates == 0 then None
    else
      var r := if period.MatchesWeekday(WeekdayOf(date)) && WindowAhead(date, windowStart, Local(z, after))
               then Resolve(z, date * DAY + Pick(windowStart, windowEnd, rolls(i)), after) else None;
      if r.Some? then r
      else FirstPick(z, period, windowStart, windowEnd, after, rolls, date + 1, i + 1, dates - 1)
  }

  lemma OneDateLess(z: Zone, period: FuzzyPeriod, windowStart: TimeOfDay, windowEnd: TimeOfDay,
                    after: int, rolls: Rolls, date: int, i: nat, dates: nat)
    requires windowStart < windowEnd && dates > 0
    ensures var r := if period.MatchesWeekday(WeekdayOf(date)) && WindowAhead(date, windowStart, Local(z, after))
                     then Resolve(z, date * DAY + Pick(windowStart, windowEnd, rolls(i)), after) else None;
            FirstPick(z, period, windowStart, windowEnd, after, rolls, date, i, dates)
              == if r.Some? then r else FirstPick(z, period, windowStart, windowEnd, after, rolls, date + 1, i + 1,
                  dates - 1)
  { }

  lemma NoDatesLeft(z: Zone, period: FuzzyPeriod, windowStart: TimeOfDay, windowEnd: TimeOfDay,
                    after: int, rolls: Rolls, date: int, i: nat)
    requires windowStart < windowEnd
    ensures FirstPick(z, period, windowStart, windowEnd, after, rolls, date, i, 0) == None
  { }

  method NextFuzzy(z: Zone, period: FuzzyPeriod, windowStart: TimeOfDay, windowEnd: TimeOfDay,
                   after: int, rolls: Rolls) returns (r: Option<int>)
    ensures r == if windowEnd <= windowStart then None
                 else FirstPick(z, period, windowStart, windowEnd, after, rolls,
                                DateOf(Local(z, after)), 0, FUZZY_DATES)
  {
    hide Resolve, Local, WeekdayOf, Pick, DateOf, TimeOf, FirstPick;
    if windowEnd <= windowStart { return None; }
    var now := Local(z, after);
    var date := DateOf(now);
    for i := 0 to FUZZY_DATES
      invariant FirstPick(z, period, windowStart, windowEnd, after, rolls, DateOf(now), 0, FUZZY_DATES)
             == FirstPick(z, period, windowStart, windowEnd, after, rolls, date, i, FUZZY_DATES - i)
    {
      OneDateLess(z, period, windowStart, windowEnd, after, rolls, date, i, FUZZY_DATES - i);
      var notStarted := date > DateOf(now) || windowStart > TimeOf(now);
      if period.MatchesWeekday(WeekdayOf(date)) && notStarted {
        var picked := Pick(windowStart, windowEnd, rolls(i));
        r := ResolveCandidate(z, date, picked, after);
        if r.Some? { return; }
      }
      date := date + 1;
    }
    NoDatesLeft(z, period, windowStart, windowEnd, after, rolls, date, FUZZY_DATES);
    return None;
  }

  // ---------- cron ----------

  function CronFrom(find: Matcher, z: Zone, after: int, anchor: int, rounds: nat): Option<int>
    decreases rounds
  {
    if rounds == 0 then None
    else
      match find(z, anchor)
      case Found(c) => if c > after then Some(c) else CronFrom(find, z, after, c, rounds - 1)
      case InvalidTime => CronFrom(find, z, after, anchor + HOUR, rounds - 1)
      case NoMatch => None
  }

  method CronNextOccurrence(find: Matcher, z: Zone, after: int) returns (r: Option<int>)
    ensures r == CronFrom(find, z, after, after, CRON_ROUNDS)
  {
    var anchor := after;
    for i := 0 to CRON_ROUNDS
      invariant CronFrom(find, z, after, after, CRON_ROUNDS) == CronFrom(find, z, after, anchor, CRON_ROUNDS - i)
    {
      match find(z, anchor) {
        case Found(c) =>
          if c > after { return Some(c); }
          anchor := c;
        case InvalidTime =>
          anchor := anchor + HOUR;
        case NoMatch =>
          return None;
      }
    }
    return None;
  }

  ghost predicate IsStandardExpression(fields: seq<seq<byte>>) {
    && |fields| == 5
    && forall i | 0 <= i < 5 :: IsStandardField(fields[i], i == 3, i == 4)
  }

  method ParseStandardCron(env: Env, fields: seq<seq<byte>>) returns (r: Option<Matcher>)
    ensures r == if IsStandardExpression(fields) then env.cron(fields) else None
  {
    if |fields| != 5 { return None; }
    for i := 0 to |fields|
      invariant forall j | 0 <= j < i :: IsStandardField(fields[j], j == 3, j == 4)
    {
      var standard := IsStandardCronField(fields[i], i == 3, i == 4);
      if !standard { return None; }
    }
    return env.cron(fields);
  }

  // ---------- every kind ----------

  function NextInterval(intervalSecs: nat, startAt: Option<int>, after: int): Option<int> {
    if intervalSecs == 0 then None
    else
      var base := match startAt case Some(s) => s case None => after;
      if after < base then Some(base)
      else
        var count := (after - base) / SECOND / intervalSecs + 1;
        Some(base + count * intervalSecs * SECOND)
  }

  ghost function Next(env: Env, kind: TriggerKind, after: int, rolls: Rolls): Option<int> {
    match kind
    case Once(fireAt) => if fireAt > after then Some(fireAt) else None
    case Interval(secs, startAt) => NextInterval(secs, startAt, after)
    case Daily(time, tz) =>
      var z := ZoneNamed(env, tz);
      FirstOn(z, ALL_DAYS, time, after, DateOf(Local(z, after)), DAILY_DATES)
    case Weekly(days, time, tz) =>
      var z := ZoneNamed(env, tz);
      if days == [] then None else FirstOn(z, days, time, after, DateOf(Local(z, after)), WEEKLY_DATES)
    case Cron(fields, tz) =>
      if !IsStandardExpression(fields) then None
      else (match env.cron(fields)
            case None => None
            case Some(find) => CronFrom(find, ZoneNamed(env, tz), after, after, CRON_ROUNDS))
    case Network => None
    case Fuzzy(period, start, end, tz) =>
      if end <= start then None
      else
        var z := ZoneNamed(env, tz);
        FirstPick(z, period, start, end, after, rolls, DateOf(Local(z, after)), 0, FUZZY_DATES)
    case AgentStarted => None
  }

  method EvaluateNextOccurrence(env: Env, kind: TriggerKind, after: int, rolls: Rolls) returns (r: Option<int>)
    ensures r == Next(env, kind, after, rolls)
  {
    match kind {
      case Once(fireAt) =>
        r := if fireAt > after then Some(fireAt) else None;
      case Interval(secs, startAt) =>
        r := NextInterval(secs, startAt, after);
      case Daily(time, tz) =>
        r := NextDaily(ZoneNamed(env, tz), time, after);
      case Weekly(days, time, tz) =>
        r := NextWeekly(ZoneNamed(env, tz), days, time, after);
      case Cron(fields, tz) =>
        var cron := ParseStandardCron(env, fields);
        match cron {
          case None => r := None;
          case Some(find) => r := CronNextOccurrence(find, ZoneNamed(env, tz), after);
        }
      case Network =>
        r := None;
      case Fuzzy(period, start, end, tz) =>
        r := NextFuzzy(ZoneNamed(env, tz), period, start, end, after, rolls);
      case AgentStarted =>
        r := None;
    }
  }
}

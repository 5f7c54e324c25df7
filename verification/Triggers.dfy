/** Triggers and tasks, as far as scheduling reads them. */
module Triggers {
  import opened Options
  import opened Zones

  type TaskId = nat
  type TriggerId = nat

  /** Nanoseconds since midnight. */
  type TimeOfDay = t: int | 0 <= t < DAY

  /** Monday is 0. */
  type Weekday = w: int | 0 <= w < 7

  type byte = b: int | 0 <= b < 256

  const ALL_DAYS: seq<Weekday> := [0, 1, 2, 3, 4, 5, 6]

  lemma EveryDayIsListed(w: Weekday)
    ensures w in ALL_DAYS
  {
    assert ALL_DAYS[w] == w;
  }

  /** Day 0 is 1970-01-01, a Thursday. */
  function WeekdayOf(date: int): Weekday { (date + 3) % 7 }

  datatype FuzzyPeriod = EveryDay | Weekdays | Weekends | OnDays(days: seq<Weekday>) {
    predicate MatchesWeekday(w: Weekday) {
      match this
      case EveryDay => true
      case Weekdays => w != 5 && w != 6
      case Weekends => w == 5 || w == 6
      case OnDays(days) => w in days
    }
  }

  datatype TriggerKind =
    | Once(fireAt: int)
    | Daily(time: TimeOfDay, timezone: string)
    | Weekly(days: seq<Weekday>, time: TimeOfDay, timezone: string)
    | Interval(intervalSecs: nat, startAt: Option<int>)
    | AgentStarted
    | Cron(fields: seq<seq<byte>>, timezone: string)  // the expression, split at white space
    | Fuzzy(period: FuzzyPeriod, windowStart: TimeOfDay, windowEnd: TimeOfDay, timezone: string)
    | Network

  datatype Trigger = Trigger(id: TriggerId, enabled: bool, kind: TriggerKind)

  datatype Task = Task(id: TaskId, enabled: bool, triggers: seq<Trigger>)
}

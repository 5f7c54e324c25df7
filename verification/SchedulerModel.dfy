/** What each step of the scheduler loop does to the upcoming entries, the registry and the sent events. */
module SchedulerModel {
  import opened Options
  import opened Zones
  import opened Triggers
  import opened Evaluator
  import opened Queues

  datatype TriggerEvent = TriggerEvent(task: TaskId, trigger: Option<TriggerId>, scheduledAt: int)

  datatype RerollError = NotRegistered | TaskDisabled | NoSuchTrigger | TriggerDisabled

  type RerollReply = Result<Option<int>, RerollError>

  /** The random numbers of one step, per evaluated trigger. */
  type Dice = (TaskId, TriggerId) -> Rolls

  datatype State = State(live: multiset<Entry>, tasks: map<TaskId, Task>, lastWall: int, sent: seq<TriggerEvent>)

  const DRIFT_SECONDS: int := 30

  function FindTrigger(triggers: seq<Trigger>, id: TriggerId): (r: Option<Trigger>)
    ensures r.Some? ==> r.value in triggers && r.value.id == id
    ensures r.None? ==> forall tr | tr in triggers :: tr.id != id
  {
    if triggers == [] then None
    else if triggers[0].id == id then Some(triggers[0])
    else FindTrigger(triggers[1..], id)
  }

  // ---------- entries made by one evaluation instant ----------

  ghost function EntryFor(env: Env, id: TaskId, tr: Trigger, now: int, dice: Dice): multiset<Entry> {
    if !tr.enabled then multiset{}
    else
      match Next(env, tr.kind, now, dice(id, tr.id))
      case Some(next) => multiset{Entry(id, tr.id, next)}
      case None => multiset{}
  }

  ghost function EntriesFor(env: Env, id: TaskId, triggers: seq<Trigger>, now: int, dice: Dice): (r: multiset<Entry>)
    ensures forall e | e in r :: e.task == id
  {
    if triggers == [] then multiset{}
    else
      var n := |triggers| - 1;
      EntriesFor(env, id, triggers[..n], now, dice) + EntryFor(env, id, triggers[n], now, dice)
  }

  ghost function Fresh(env: Env, task: Task, now: int, dice: Dice): (r: multiset<Entry>)
    ensures forall e | e in r :: e.task == task.id
  {
    if task.enabled then EntriesFor(env, task.id, task.triggers, now, dice) else multiset{}
  }

  ghost predicate Keyed(tasks: map<TaskId, Task>) {
    forall id | id in tasks :: tasks[id].id == id
  }

  ghost function FreshAll(env: Env, tasks: map<TaskId, Task>, now: int, dice: Dice): (r: multiset<Entry>)
    requires Keyed(tasks)
    ensures forall e :: r[e] == if e.task in tasks then Fresh(env, tasks[e.task], now, dice)[e] else 0
    decreases |tasks|
  {
    if tasks == map[] then multiset{}
    else
      var id :| id in tasks;
      FreshAll(env, tasks - {id}, now, dice) + Fresh(env, tasks[id], now, dice)
  }

  // ---------- the steps ----------

  ghost function AfterAdd(env: Env, s: State, task: Task, now: int, dice: Dice): State {
    s.(live := WithoutTask(s.live, task.id) + Fresh(env, task, now, dice), tasks := s.tasks[task.id := task])
  }

  ghost function AfterRemove(s: State, id: TaskId): State {
    s.(live := WithoutTask(s.live, id), tasks := s.tasks - {id})
  }

  function AfterTriggerNow(s: State, id: TaskId, now: int): State {
    s.(sent := s.sent + [TriggerEvent(id, None, now)])
  }

  lemma SomeEntryIsFirst(m: multiset<Entry>)
    requires m != multiset{}
    ensures exists e :: IsFirst(e, m)
  {
    var e := FirstExists(m);
  }

  ghost function First(m: multiset<Entry>): (e: Entry)
    requires m != multiset{}
    ensures IsFirst(e, m)
  {
    SomeEntryIsFirst(m);
    var e :| IsFirst(e, m);
    e
  }

  /** The entry that replaces a fired one: the trigger's next occurrence, while task and trigger are enabled. */
  ghost function Again(env: Env, tasks: map<TaskId, Task>, e: Entry, now: int, dice: Dice): multiset<Entry> {
    if e.task in tasks && tasks[e.task].enabled then
      match FindTrigger(tasks[e.task].triggers, e.trigger)
      case Some(tr) => EntryFor(env, e.task, tr, now, dice)
      case None => multiset{}
    else multiset{}
  }

  ghost function AfterTimer(env: Env, s: State, now: int, dice: Dice): State {
    if s.live == multiset{} then s
    else
      var e := First(s.live);
      s.(live := s.live - multiset{e} + Again(env, s.tasks, e, now, dice),
         sent := s.sent + [TriggerEvent(e.task, Some(e.trigger), e.at)])
  }

  /** Whole seconds of a span, truncated toward zero. */
  function WholeSeconds(span: int): int {
    if span >= 0 then span / SECOND else -(-span / SECOND)
  }

  predicate ClockJumped(lastWall: int, now: int, monotonicSeconds: int) {
    var drift := WholeSeconds(now - lastWall) - monotonicSeconds;
    drift > DRIFT_SECONDS || -drift > DRIFT_SECONDS
  }

  ghost function AfterTick(env: Env, s: State, now: int, monotonicSeconds: int, dice: Dice): State
    requires Keyed(s.tasks)
  {
    s.(live := if ClockJumped(s.lastWall, now, monotonicSeconds) then FreshAll(env, s.tasks, now, dice) else s.live,
       lastWall := now)
  }

  /** The trigger a reroll applies to, or why there is none. */
  function RerollTarget(s: State, id: TaskId, trigger: TriggerId): Result<Trigger, RerollError> {
    if id !in s.tasks then Err(NotRegistered)
    else if !s.tasks[id].enabled then Err(TaskDisabled)
    else
      match FindTrigger(s.tasks[id].triggers, trigger)
      case None => Err(NoSuchTrigger)
      case Some(tr) => if tr.enabled then Ok(tr) else Err(TriggerDisabled)
  }

  ghost function OfKey(m: multiset<Entry>, id: TaskId, trigger: TriggerId): (r: multiset<Entry>)
    ensures forall e :: r[e] == if e.task == id && e.trigger == trigger then m[e] else 0
  {
    OfTrigger(OfTask(m, id), trigger)
  }

  /** `k` copies of the entry of `trigger` at `next`, or nothing. */
  ghost function Landed(id: TaskId, trigger: TriggerId, next: Option<int>, k: nat): multiset<Entry> {
    match next
    case Some(t) => multiset{}[Entry(id, trigger, t) := k]
    case None => multiset{}
  }

  /** Every entry of the trigger moves to its next occurrence; one appears if there was none. */
  ghost function Rerolled(m: multiset<Entry>, id: TaskId, trigger: TriggerId, next: Option<int>): multiset<Entry> {
    var target := OfKey(m, id, trigger);
    var copies := if target == multiset{} then 1 else |target|;
    m - target + Landed(id, trigger, next, copies)
  }

  ghost function RerollAnswer(env: Env, s: State, id: TaskId, trigger: TriggerId, now: int, dice: Dice): RerollReply {
    match RerollTarget(s, id, trigger)
    case Err(why) => Err(why)
    case Ok(tr) => Ok(Next(env, tr.kind, now, dice(id, trigger)))
  }

  ghost function AfterReroll(env: Env, s: State, id: TaskId, trigger: TriggerId, now: int, dice: Dice): State {
    match RerollAnswer(env, s, id, trigger, now, dice)
    case Err(_) => s
    case Ok(next) => s.(live := Rerolled(s.live, id, trigger, next))
  }
}

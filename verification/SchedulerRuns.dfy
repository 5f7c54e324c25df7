/** Whole runs of the scheduler loop: order, agreement with the registry, catch-up, rebuilds and rerolls. */
module SchedulerRuns {
  import opened Options
  import opened Triggers
  import opened Evaluator
  import opened Recurrence
  import opened Queues
  import opened SchedulerModel
  import opened SchedulerSteps

  datatype Command =
    | AddTask(added: Task)
    | RemoveTask(removed: TaskId)
    | TriggerNow(triggered: TaskId)
    | Reroll(task: TaskId, trigger: TriggerId)
    | Timer
    | Tick(monotonicSeconds: int)

  /** One turn of the loop: the command or timer that woke it, the wall clock, and the random numbers drawn. */
  datatype Turn = Turn(now: int, dice: Dice, command: Command)

  ghost function Step(env: Env, s: State, turn: Turn): (r: State)
    requires Keyed(s.tasks)
    ensures Keyed(r.tasks)
  {
    match turn.command
    case AddTask(task) => AfterAdd(env, s, task, turn.now, turn.dice)
    case RemoveTask(id) => AfterRemove(s, id)
    case TriggerNow(id) => AfterTriggerNow(s, id, turn.now)
    case Reroll(id, trigger) => AfterReroll(env, s, id, trigger, turn.now, turn.dice)
    case Timer => AfterTimer(env, s, turn.now, turn.dice)
    case Tick(mono) => AfterTick(env, s, turn.now, mono, turn.dice)
  }

  ghost function Run(env: Env, start: int, turns: seq<Turn>): (r: State)
    ensures Keyed(r.tasks)
  {
    if turns == [] then State(multiset{}, map[], start, [])
    else Step(env, Run(env, start, turns[..|turns| - 1]), turns[|turns| - 1])
  }

  function ClockOf(start: int, turns: seq<Turn>): int {
    if turns == [] then start else turns[|turns| - 1].now
  }

  /**
   Tasks have distinct trigger ids, and the timer goes off with an entry due: the wall
   clock has moved on by at least the time slept.
   */
  ghost predicate Allowed(s: State, turn: Turn) {
    match turn.command
    case AddTask(task) => DistinctTriggers(task)
    case Timer => s.live != multiset{} && First(s.live).at <= turn.now
    case _ => true
  }

  /** A run whose wall clock never goes back. */
  ghost predicate IsRun(env: Env, start: int, turns: seq<Turn>) {
    turns == [] ||
    var before, turn := turns[..|turns| - 1], turns[|turns| - 1];
    && IsRun(env, start, before)
    && ClockOf(start, before) <= turn.now
    && Allowed(Run(env, start, before), turn)
  }

  lemma InvLater(env: Env, s: State, clock: int, later: int)
    requires Inv(env, s, clock) && clock <= later
    ensures Inv(env, s, later)
  {
    hide OnePerTrigger, Agrees, Ordered, Ahead, GoodTasks, HasEntry, Next;
  }

  lemma StepKeeps(env: Env, s: State, turn: Turn)
    requires Inv(env, s, turn.now) && Allowed(s, turn)
    ensures Inv(env, Step(env, s, turn), turn.now)
  {
    hide Inv, DistinctTriggers, AfterAdd, AfterRemove, AfterTriggerNow, AfterReroll, AfterTimer, AfterTick;
    InvIsKeyed(env, s, turn.now);
    match turn.command {
      case AddTask(task) => AddKeeps(env, s, task, turn.now, turn.dice);
      case RemoveTask(id) => RemoveKeeps(env, s, id, turn.now);
      case TriggerNow(id) => TriggerNowKeeps(env, s, id, turn.now);
      case Reroll(id, trigger) => RerollKeeps(env, s, id, trigger, turn.now, turn.dice);
      case Timer => TimerKeeps(env, s, turn.now, turn.dice);
      case Tick(mono) => TickKeeps(env, s, turn.now, mono, turn.dice);
    }
  }

  lemma InvIsKeyed(env: Env, s: State, clock: int)
    requires Inv(env, s, clock)
    ensures Keyed(s.tasks)
  { }

  /** Every reachable state has one entry per trigger, agrees with the registry, and its events are in order. */
  lemma {:induction false} RunKeeps(env: Env, start: int, turns: seq<Turn>)
    requires IsRun(env, start, turns)
    ensures Inv(env, Run(env, start, turns), ClockOf(start, turns))
  {
    hide Inv, Step, Allowed;
    if turns == [] {
      InitialInv(env, start);
    } else {
      var before, turn := turns[..|turns| - 1], turns[|turns| - 1];
      RunKeeps(env, start, before);
      InvLater(env, Run(env, start, before), ClockOf(start, before), turn.now);
      StepKeeps(env, Run(env, start, before), turn);
    }
  }

  lemma InitialInv(env: Env, start: int)
    ensures Inv(env, State(multiset{}, map[], start, []), start)
  { }

  /** The i-th and j-th sent events belong to the same trigger. */
  ghost predicate SameSource(v: TriggerEvent, w: TriggerEvent) {
    v.task == w.task && v.trigger == w.trigger
  }

  /** Over a whole run timed events come in time order, and no trigger fires twice for one occurrence. */
  lemma TimedEventsInOrder(env: Env, start: int, turns: seq<Turn>, i: nat, j: nat)
    requires IsRun(env, start, turns)
    requires i < j < |Run(env, start, turns).sent|
    requires IsTimed(Run(env, start, turns).sent[i]) && IsTimed(Run(env, start, turns).sent[j])
    ensures var sent := Run(env, start, turns).sent;
            && sent[i].scheduledAt <= sent[j].scheduledAt
            && (SameSource(sent[i], sent[j]) ==> sent[i].scheduledAt < sent[j].scheduledAt)
  {
    hide Run, IsRun;
    RunKeeps(env, start, turns);
  }

  /** In every reachable state: entries name enabled registered triggers, one each, and recurring triggers have one. */
  lemma QueueAgreesWithRegistry(env: Env, start: int, turns: seq<Turn>)
    requires IsRun(env, start, turns)
    ensures var s := Run(env, start, turns);
            && (forall e | e in s.live :: Registered(s.tasks, e) && s.live[e] == 1)
            && (forall e, f | e in s.live && f in s.live && SameTrigger(e, f) :: e == f)
            && (forall id, tr | id in s.tasks && s.tasks[id].enabled && tr in s.tasks[id].triggers && tr.enabled
                                && Recurs(env, tr.kind, ClockOf(start, turns)) ::
                  HasEntry(s.live, id, tr.id))
  {
    hide Run, IsRun, Registered, Recurs, HasEntry, HasNextUntil;
    RunKeeps(env, start, turns);
    var s := Run(env, start, turns);
    forall id, tr | id in s.tasks && s.tasks[id].enabled && tr in s.tasks[id].triggers && tr.enabled
        && Recurs(env, tr.kind, ClockOf(start, turns))
      ensures HasEntry(s.live, id, tr.id)
    {
      RecurringKindsAlwaysHaveNext(env, tr.kind, ClockOf(start, turns));
    }
  }

  // ---------- catch-up at a frozen clock ----------

  ghost function Due(m: multiset<Entry>, now: int): (r: multiset<Entry>)
    ensures forall e :: r[e] == if e.at <= now then m[e] else 0
  {
    Keep(m, (e: Entry) => e.at <= now)
  }

  ghost function TimerTurns(env: Env, s: State, now: int, rolls: seq<Dice>): State
    decreases |rolls|
  {
    if rolls == [] then s else TimerTurns(env, AfterTimer(env, s, now, rolls[0]), now, rolls[1..])
  }

  function EventOf(e: Entry): TriggerEvent {
    TriggerEvent(e.task, Some(e.trigger), e.at)
  }

  function EventsOf(es: seq<Entry>): seq<TriggerEvent> {
    if es == [] then [] else [EventOf(es[0])] + EventsOf(es[1..])
  }

  ghost predicate InFiringOrder(es: seq<Entry>) {
    forall i, j | 0 <= i < j < |es| :: es[i] == es[j] || Before(es[i], es[j])
  }

  /** One timer turn with something due fires the first entry; nothing it queues is due. */
  lemma OneDueLess(env: Env, s: State, now: int, dice: Dice)
    requires Due(s.live, now) != multiset{}
    ensures s.live != multiset{}
    ensures var e := First(s.live);
            && e in Due(s.live, now)
            && Due(AfterTimer(env, s, now, dice).live, now) == Due(s.live, now) - multiset{e}
            && AfterTimer(env, s, now, dice).sent == s.sent + [EventOf(e)]
  {
    hide Again, Due;
    var d :| d in Due(s.live, now);
    assert d in s.live;
    var e := First(s.live);
    assert e.at <= d.at;
    AgainIsBatch(env, s.tasks, e, now, dice);
    forall f ensures Due(AfterTimer(env, s, now, dice).live, now)[f] == (Due(s.live, now) - multiset{e})[f] {
      if f in Again(env, s.tasks, e, now, dice) { assert f.at > now; }
    }
  }

  /**
   At a frozen clock, as many timer turns as there are due entries fire each of them
   exactly once, in firing order, and leave nothing due.
   */
  lemma {:induction false} CatchUpFiresEachDueOnce(env: Env, s: State, now: int, rolls: seq<Dice>)
      returns (fired: seq<Entry>)
    requires |rolls| == |Due(s.live, now)|
    ensures multiset(fired) == Due(s.live, now) && InFiringOrder(fired)
    ensures var r := TimerTurns(env, s, now, rolls);
            r.sent == s.sent + EventsOf(fired) && Due(r.live, now) == multiset{}
    decreases |rolls|
  {
    hide AfterTimer, Due, IsFirst, InFiringOrder, EventsOf;
    if rolls == [] {
      NothingFired();
      fired := [];
    } else {
      OneDueLess(env, s, now, rolls[0]);
      var e := First(s.live);
      var rest := CatchUpFiresEachDueOnce(env, AfterTimer(env, s, now, rolls[0]), now, rolls[1..]);
      fired := [e] + rest;
      FirstThenRest(e, s.live, now, rest);
      assert s.sent + [EventOf(e)] + EventsOf(rest) == s.sent + ([EventOf(e)] + EventsOf(rest));
    }
  }

  lemma NothingFired()
    ensures EventsOf([]) == [] && InFiringOrder([])
  { }

  lemma FirstThenRest(e: Entry, m: multiset<Entry>, now: int, rest: seq<Entry>)
    requires IsFirst(e, m) && e in Due(m, now)
    requires multiset(rest) == Due(m, now) - multiset{e} && InFiringOrder(rest)
    ensures multiset([e] + rest) == Due(m, now) && InFiringOrder([e] + rest)
    ensures EventsOf([e] + rest) == [EventOf(e)] + EventsOf(rest)
  {
    hide Due;
    assert ([e] + rest)[1..] == rest;
    forall i | 0 <= i < |rest| ensures e == rest[i] || Before(e, rest[i]) {
      assert rest[i] in multiset(rest);
    }
  }

  // ---------- rebuilds ----------

  /** The state after adding the tasks named by `order` to a fresh scheduler. */
  ghost function ReAdded(env: Env, start: int, tasks: map<TaskId, Task>, order: seq<TaskId>, now: int,
      dice: Dice): State
    requires forall id | id in order :: id in tasks
  {
    if order == [] then State(multiset{}, map[], start, [])
    else
      var n := |order| - 1;
      AfterAdd(env, ReAdded(env, start, tasks, order[..n], now, dice), tasks[order[n]], now, dice)
  }

  /** The live entries and registered tasks are those made at `now` for the tasks of `order`. */
  ghost predicate IsFreshFor(env: Env, s: State, tasks: map<TaskId, Task>, order: seq<TaskId>, now: int, dice: Dice)
    requires forall id | id in order :: id in tasks
  {
    && (forall e :: s.live[e] == if e.task in order then Fresh(env, tasks[e.task], now, dice)[e] else 0)
    && (forall id :: id in s.tasks <==> id in order)
    && (forall id | id in order :: s.tasks[id] == tasks[id])
  }

  lemma OneMoreAdded(env: Env, s: State, tasks: map<TaskId, Task>, order: seq<TaskId>, last: TaskId, now: int,
      dice: Dice)
    requires Keyed(tasks) && last in tasks && forall id | id in order :: id in tasks
    requires IsFreshFor(env, s, tasks, order, now, dice)
    ensures IsFreshFor(env, AfterAdd(env, s, tasks[last], now, dice), tasks, order + [last], now, dice)
  {
    hide Fresh, WithoutTask;
    assert forall id :: id in order + [last] <==> id in order || id == last;
  }

  lemma {:induction false} ReAddedIsFresh(env: Env, start: int, tasks: map<TaskId, Task>, order: seq<TaskId>,
      now: int, dice: Dice)
    requires Keyed(tasks) && forall id | id in order :: id in tasks
    ensures IsFreshFor(env, ReAdded(env, start, tasks, order, now, dice), tasks, order, now, dice)
  {
    hide IsFreshFor, AfterAdd;
    if order == [] {
      NothingAdded(env, start, tasks, now, dice);
    } else {
      var n := |order| - 1;
      assert order == order[..n] + [order[n]];
      ReAddedIsFresh(env, start, tasks, order[..n], now, dice);
      OneMoreAdded(env, ReAdded(env, start, tasks, order[..n], now, dice), tasks, order[..n], order[n], now, dice);
    }
  }

  lemma NothingAdded(env: Env, start: int, tasks: map<TaskId, Task>, now: int, dice: Dice)
    ensures IsFreshFor(env, State(multiset{}, map[], start, []), tasks, [], now, dice)
  { }

  /** A clock-jump rebuild leaves the entries that re-adding every registered task to a fresh scheduler would make. */
  lemma RebuildIsReAdding(env: Env, s: State, start: int, order: seq<TaskId>, now: int, monotonicSeconds: int,
      dice: Dice)
    requires Keyed(s.tasks) && ClockJumped(s.lastWall, now, monotonicSeconds)
    requires forall id :: id in order <==> id in s.tasks
    ensures var fresh' := ReAdded(env, start, s.tasks, order, now, dice);
            var rebuilt := AfterTick(env, s, now, monotonicSeconds, dice);
            rebuilt.live == fresh'.live && rebuilt.tasks == fresh'.tasks && rebuilt.sent == s.sent
  {
    hide Fresh, FreshAll, ReAdded;
    ReAddedIsFresh(env, start, s.tasks, order, now, dice);
  }

  // ---------- rerolls ----------

  /** An accepted reroll moves the target's entries to the answered time (or out) and no other entry. */
  lemma RerolledEntries(env: Env, s: State, id: TaskId, trigger: TriggerId, now: int, dice: Dice, e: Entry)
    requires RerollAnswer(env, s, id, trigger, now, dice).Ok?
    ensures var answer := RerollAnswer(env, s, id, trigger, now, dice).value;
            var m := AfterReroll(env, s, id, trigger, now, dice).live;
            if (e.task, e.trigger) == (id, trigger) then e in m <==> answer == Some(e.at) else m[e] == s.live[e]
  {
    hide RerollAnswer, OfTask, OfTrigger;
  }

  /** So every other trigger keeps its next firing time, and the target's is the one answered. */
  lemma RerollMovesOnlyTarget(env: Env, s: State, id: TaskId, trigger: TriggerId, now: int, dice: Dice,
                              next: map<(TaskId, TriggerId), int>, next': map<(TaskId, TriggerId), int>)
    requires RerollAnswer(env, s, id, trigger, now, dice).Ok?
    requires Earliest(next, s.live)
    requires Earliest(next', AfterReroll(env, s, id, trigger, now, dice).live)
    ensures forall key | key != (id, trigger) :: key in next' <==> key in next
    ensures forall key | key != (id, trigger) && key in next :: next'[key] == next[key]
    ensures match RerollAnswer(env, s, id, trigger, now, dice).value
            case Some(t) => (id, trigger) in next' && next'[(id, trigger)] == t
            case None => (id, trigger) !in next'
  {
    hide RerollAnswer, AfterReroll, Earliest;
    var m, m' := s.live, AfterReroll(env, s, id, trigger, now, dice).live;
    forall e: Entry | (e.task, e.trigger) != (id, trigger) ensures m'[e] == m[e] {
      RerolledEntries(env, s, id, trigger, now, dice, e);
    }
    forall e: Entry | (e.task, e.trigger) == (id, trigger)
      ensures e in m' <==> RerollAnswer(env, s, id, trigger, now, dice).value == Some(e.at)
    {
      RerolledEntries(env, s, id, trigger, now, dice, e);
    }
    forall key | key != (id, trigger)
      ensures key in next' <==> key in next
      ensures key in next ==> next'[key] == next[key]
    {
      SameEarliest(m, m', next, next', key);
    }
    match RerollAnswer(env, s, id, trigger, now, dice).value {
      case Some(t) =>
        OnlyEarliest(m', next', id, trigger, t);
      case None =>
        if (id, trigger) in next' { EarliestIsEntry(m', next', (id, trigger)); }
    }
  }

  lemma EarliestIsEntry(m: multiset<Entry>, next: map<(TaskId, TriggerId), int>, key: (TaskId, TriggerId))
    requires Earliest(next, m) && key in next
    ensures Entry(key.0, key.1, next[key]) in m
  { }

  lemma OnlyEarliest(m: multiset<Entry>, next: map<(TaskId, TriggerId), int>, id: TaskId, trigger: TriggerId, t: int)
    requires Earliest(next, m) && Entry(id, trigger, t) in m
    requires forall e: Entry | e in m && (e.task, e.trigger) == (id, trigger) :: e.at == t
    ensures (id, trigger) in next && next[(id, trigger)] == t
  {
    assert Entry(id, trigger, next[(id, trigger)]) in m by { EarliestIsEntry(m, next, (id, trigger)); }
  }

  lemma SameEarliest(m: multiset<Entry>, m': multiset<Entry>, next: map<(TaskId, TriggerId), int>,
                     next': map<(TaskId, TriggerId), int>, key: (TaskId, TriggerId))
    requires Earliest(next, m) && Earliest(next', m')
    requires forall at :: Entry(key.0, key.1, at) in m <==> Entry(key.0, key.1, at) in m'
    ensures (key in next' <==> key in next) && (key in next ==> next'[key] == next[key])
  {
    if key in next { EarliestIsEntry(m, next, key); }
    if key in next' { EarliestIsEntry(m', next', key); }
  }
}

/** What adding, removing, ticking and rerolling achieve over whole runs of the scheduler. */
module TaskTurns {
  import opened Options
  import opened Triggers
  import opened Evaluator
  import opened Queues
  import opened SchedulerModel
  import opened SchedulerSteps
  import opened SchedulerRuns
  import opened LoneTriggers

  /** Nothing of the task is queued or registered. */
  ghost predicate IsAbsent(s: State, id: TaskId) {
    id !in s.tasks && forall e | e in s.live :: e.task != id
  }

  /** Entries and registration of every other task are the same. */
  ghost predicate OthersSame(s: State, s': State, id: TaskId) {
    && (forall e: Entry | e.task != id :: s'.live[e] == s.live[e])
    && (forall other | other != id ::
          (other in s'.tasks <==> other in s.tasks) && (other in s.tasks ==> s'.tasks[other] == s.tasks[other]))
  }

  // ---------- removing and adding ----------

  /** A removal takes the task's entries and registration, leaves those of all others, and sends nothing. */
  lemma RemovedIsGone(env: Env, start: int, turns: seq<Turn>, turn: Turn, id: TaskId)
    requires turn.command == RemoveTask(id)
    ensures var s, s' := Run(env, start, turns), Run(env, start, turns + [turn]);
            IsAbsent(s', id) && OthersSame(s, s', id) && s'.sent == s.sent && s'.lastWall == s.lastWall
  {
    hide Run, IsRun, Allowed;
    RunOneMore(env, start, turns, turn);
  }

  /** Only adding the task brings it back: no other turn queues, registers or fires anything of it. */
  lemma StepKeepsAbsent(env: Env, s: State, turn: Turn, id: TaskId)
    requires Keyed(s.tasks) && IsAbsent(s, id)
    requires !(turn.command.AddTask? && turn.command.added.id == id)
    ensures IsAbsent(Step(env, s, turn), id)
    ensures s.sent <= Step(env, s, turn).sent
    ensures forall i | |s.sent| <= i < |Step(env, s, turn).sent| ::
              !(IsTimed(Step(env, s, turn).sent[i]) && Step(env, s, turn).sent[i].task == id)
  {
    hide Fresh, FreshAll, Next;
    match turn.command {
      case AddTask(task) => assert forall e | e in Fresh(env, task, turn.now, turn.dice) :: e.task == task.id;
      case Timer => if s.live != multiset{} { AgainIsOfTask(env, s.tasks, First(s.live), turn.now, turn.dice); }
      case Reroll(i, t) => RerollIsOfTask(env, s, turn, id);
      case _ =>
    }
  }

  lemma AgainIsOfTask(env: Env, tasks: map<TaskId, Task>, e: Entry, now: int, dice: Dice)
    ensures forall f | f in Again(env, tasks, e, now, dice) :: f.task == e.task
  {
    hide Next, FindTrigger;
  }

  lemma RerollIsOfTask(env: Env, s: State, turn: Turn, id: TaskId)
    requires turn.command.Reroll? && Keyed(s.tasks) && IsAbsent(s, id)
    ensures IsAbsent(Step(env, s, turn), id) && Step(env, s, turn).sent == s.sent
  {
    hide RerollAnswer, Rerolled;
    var i, t := turn.command.task, turn.command.trigger;
    if RerollAnswer(env, s, i, t, turn.now, turn.dice).Ok? {
      RerollNeedsTask(env, s, i, t, turn.now, turn.dice);
      forall e | e in Step(env, s, turn).live ensures e.task != id {
        RerolledEntries(env, s, i, t, turn.now, turn.dice, e);
      }
    }
  }

  lemma RerollNeedsTask(env: Env, s: State, id: TaskId, trigger: TriggerId, now: int, dice: Dice)
    ensures RerollAnswer(env, s, id, trigger, now, dice).Ok? ==> id in s.tasks
  { }

  predicate Adds(turn: Turn, id: TaskId) { turn.command.AddTask? && turn.command.added.id == id }

  /** After a removal, and until the task is added again, nothing of it is queued and no timed event of it is sent. */
  lemma {:induction false} RemovedStaysSilent(env: Env, start: int, turns: seq<Turn>, turn: Turn, id: TaskId,
                                              more: seq<Turn>)
    requires turn.command == RemoveTask(id) && forall k | 0 <= k < |more| :: !Adds(more[k], id)
    ensures var s, r := Run(env, start, turns), Run(env, start, turns + [turn] + more);
            && IsAbsent(r, id) && s.sent <= r.sent
            && forall i | |s.sent| <= i < |r.sent| :: !(IsTimed(r.sent[i]) && r.sent[i].task == id)
    decreases |more|
  {
    hide Run, Step, IsAbsent;
    if more == [] {
      RemovedIsGone(env, start, turns, turn, id);
      assert turns + [turn] + more == turns + [turn];
    } else {
      var n := |more| - 1;
      RemovedStaysSilent(env, start, turns, turn, id, more[..n]);
      assert more == more[..n] + [more[n]];
      assert turns + [turn] + more == turns + [turn] + more[..n] + [more[n]];
      RunOneMore(env, start, turns + [turn] + more[..n], more[n]);
      StepKeepsAbsent(env, Run(env, start, turns + [turn] + more[..n]), more[n], id);
    }
  }

  /** The entry is an enabled trigger's next occurrence, asked for at `now`. */
  ghost predicate IsNextOf(env: Env, task: Task, now: int, dice: Dice, e: Entry) {
    && task.enabled
    && exists tr :: tr in task.triggers && tr.enabled && tr.id == e.trigger
                    && Next(env, tr.kind, now, dice(task.id, tr.id)) == Some(e.at)
  }

  /**
   Adding a task registers it and queues, in place of what it had, exactly one entry for
   each enabled trigger that has a next occurrence, if the task is enabled.
   */
  lemma AddedIsQueued(env: Env, start: int, turns: seq<Turn>, turn: Turn, task: Task)
    requires turn.command == AddTask(task) && DistinctTriggers(task)
    ensures var s, s' := Run(env, start, turns), Run(env, start, turns + [turn]);
            && OthersSame(s, s', task.id) && task.id in s'.tasks && s'.tasks[task.id] == task && s'.sent == s.sent
            && forall e: Entry | e.task == task.id ::
                 s'.live[e] == if IsNextOf(env, task, turn.now, turn.dice, e) then 1 else 0
  {
    hide Run, IsRun, Allowed, Fresh, Next, DistinctTriggers;
    RunOneMore(env, start, turns, turn);
    forall e: Entry | e.task == task.id
      ensures Fresh(env, task, turn.now, turn.dice)[e] == if IsNextOf(env, task, turn.now, turn.dice, e) then 1 else 0
    {
      FreshCounts(env, task, turn.now, turn.dice, e);
    }
  }

  // ---------- ticks ----------

  /** `w` is the span in whole seconds, truncated toward zero. */
  predicate InSeconds(span: int, w: int) {
    if span >= 0 then w * 1_000_000_000 <= span < (w + 1) * 1_000_000_000
    else (w - 1) * 1_000_000_000 < span <= w * 1_000_000_000
  }

  lemma SecondsAreWhole(span: int, w: int)
    requires InSeconds(span, w)
    ensures WholeSeconds(span) == w
  { }

  lemma OnlyTicksSetWall(env: Env, s: State, turn: Turn)
    requires Keyed(s.tasks)
    ensures Step(env, s, turn).lastWall == if turn.command.Tick? then turn.now else s.lastWall
  {
    hide Fresh, FreshAll, Again, RerollAnswer, Rerolled;
  }

  /** The wall clock of the latest tick, or of the start. */
  function LastTick(start: int, turns: seq<Turn>): int {
    if turns == [] then start
    else if turns[|turns| - 1].command.Tick? then turns[|turns| - 1].now
    else LastTick(start, turns[..|turns| - 1])
  }

  lemma {:induction false} WallIsLastTick(env: Env, start: int, turns: seq<Turn>)
    ensures Run(env, start, turns).lastWall == LastTick(start, turns)
  {
    hide Step;
    if turns != [] {
      var n := |turns| - 1;
      WallIsLastTick(env, start, turns[..n]);
      OnlyTicksSetWall(env, Run(env, start, turns[..n]), turns[n]);
    }
  }

  /**
   A tick rebuilds exactly if, since the tick before (or the start), the wall clock has moved
   more than 30 whole seconds further, or that much less, than the monotonic clock: then the
   entries are those of re-adding every registered task in any order to a fresh scheduler,
   and otherwise they are left alone. Tasks and events stay in either case.
   */
  lemma TickRebuildsIffDrifted(env: Env, start: int, turns: seq<Turn>, tick: Turn, wall: int, order: seq<TaskId>)
    requires tick.command.Tick? && InSeconds(tick.now - LastTick(start, turns), wall)
    requires forall id :: id in order <==> id in Run(env, start, turns).tasks
    ensures var s, s' := Run(env, start, turns), Run(env, start, turns + [tick]);
            var mono := tick.command.monotonicSeconds;
            && s'.tasks == s.tasks && s'.sent == s.sent
            && s'.live == if wall - mono > 30 || mono - wall > 30
                          then ReAdded(env, start, s.tasks, order, tick.now, tick.dice).live else s.live
  {
    hide Run, IsRun, Allowed, FreshAll, ReAdded, WholeSeconds;
    var s := Run(env, start, turns);
    RunOneMore(env, start, turns, tick);
    WallIsLastTick(env, start, turns);
    SecondsAreWhole(tick.now - s.lastWall, wall);
    if ClockJumped(s.lastWall, tick.now, tick.command.monotonicSeconds) {
      RebuildIsReAdding(env, s, start, order, tick.now, tick.command.monotonicSeconds, tick.dice);
    }
  }

  // ---------- rerolls ----------

  predicate HasTrigger(task: Task, trigger: TriggerId) {
    exists tr :: tr in task.triggers && tr.id == trigger
  }

  predicate HasEnabledTrigger(task: Task, trigger: TriggerId) {
    exists tr :: tr in task.triggers && tr.id == trigger && tr.enabled
  }

  /**
   A reroll is accepted exactly if the task is registered and enabled and has an enabled
   trigger of that id; its answer is that trigger's next occurrence. Each refusal has its
   own reason and changes nothing.
   */
  lemma RerollAcceptedIff(env: Env, start: int, turns: seq<Turn>, id: TaskId, trigger: TriggerId, now: int, dice: Dice)
    requires IsRun(env, start, turns)
    ensures var s := Run(env, start, turns);
            var answer := RerollAnswer(env, s, id, trigger, now, dice);
            if id !in s.tasks then answer == Err(NotRegistered)
            else if !s.tasks[id].enabled then answer == Err(TaskDisabled)
            else if !HasTrigger(s.tasks[id], trigger) then answer == Err(NoSuchTrigger)
            else if !HasEnabledTrigger(s.tasks[id], trigger) then answer == Err(TriggerDisabled)
            else forall tr | tr in s.tasks[id].triggers && tr.id == trigger ::
                   answer == Ok(Next(env, tr.kind, now, dice(id, trigger)))
    ensures var s := Run(env, start, turns);
            RerollAnswer(env, s, id, trigger, now, dice).Err? ==> AfterReroll(env, s, id, trigger, now, dice) == s
  {
    hide Run, IsRun, Next, FindTrigger;
    RunKeeps(env, start, turns);
    var s := Run(env, start, turns);
    if id in s.tasks { assert DistinctTriggers(s.tasks[id]); }
  }
}

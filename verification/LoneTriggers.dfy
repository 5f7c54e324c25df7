/** Runs of a scheduler whose only task has one trigger. */
module LoneTriggers {
  import opened Options
  import opened Triggers
  import opened Evaluator
  import opened Queues
  import opened SchedulerModel
  import opened SchedulerRuns

  function Lone(id: TaskId, trigger: TriggerId, kind: TriggerKind): Task {
    Task(id, true, [Trigger(trigger, true, kind)])
  }

  function Queued(id: TaskId, trigger: TriggerId, next: Option<int>): multiset<Entry> {
    match next
    case Some(at) => multiset{Entry(id, trigger, at)}
    case None => multiset{}
  }

  lemma RunOneMore(env: Env, start: int, turns: seq<Turn>, turn: Turn)
    ensures Run(env, start, turns + [turn]) == Step(env, Run(env, start, turns), turn)
    ensures IsRun(env, start, turns + [turn]) <==>
              IsRun(env, start, turns) && ClockOf(start, turns) <= turn.now && Allowed(Run(env, start, turns), turn)
  {
    hide Step, Allowed;
    assert (turns + [turn])[..|turns|] == turns;
  }

  /** The lone trigger's next occurrence is all that is queued, on adding its task and after firing. */
  lemma LoneEntries(env: Env, id: TaskId, trigger: TriggerId, kind: TriggerKind, now: int, dice: Dice)
    ensures var next := Next(env, kind, now, dice(id, trigger));
            && Fresh(env, Lone(id, trigger, kind), now, dice) == Queued(id, trigger, next)
            && forall at :: Again(env, map[id := Lone(id, trigger, kind)], Entry(id, trigger, at), now, dice)
                            == Queued(id, trigger, next)
  {
    hide Next;
    var tr := Trigger(trigger, true, kind);
    assert [tr][..0] == [];
    var before := EntriesFor(env, id, [], now, dice);
    assert EntriesFor(env, id, [tr], now, dice) == before + EntryFor(env, id, tr, now, dice);
    assert FindTrigger([tr], trigger) == Some(tr);
  }

  /** The state of such a run: what is queued, and what was sent. */
  ghost predicate IsLone(s: State, id: TaskId, trigger: TriggerId, kind: TriggerKind, next: Option<int>,
                         sent: seq<TriggerEvent>) {
    s.live == Queued(id, trigger, next) && s.tasks == map[id := Lone(id, trigger, kind)] && s.sent == sent
  }

  lemma LoneAdded(env: Env, start: int, id: TaskId, trigger: TriggerId, kind: TriggerKind, now: int, dice: Dice)
    requires start <= now
    ensures var turns := [Turn(now, dice, AddTask(Lone(id, trigger, kind)))];
            && IsRun(env, start, turns)
            && IsLone(Run(env, start, turns), id, trigger, kind, Next(env, kind, now, dice(id, trigger)), [])
  {
    hide Fresh, Next, Again;
    LoneEntries(env, id, trigger, kind, now, dice);
    var turn := Turn(now, dice, AddTask(Lone(id, trigger, kind)));
    RunOneMore(env, start, [], turn);
    assert [] + [turn] == [turn];
  }

  /** A timer turn, early or not, sends the lone entry and queues the next one. */
  lemma LoneFires(env: Env, start: int, turns: seq<Turn>, id: TaskId, trigger: TriggerId, kind: TriggerKind,
                  at: int, sent: seq<TriggerEvent>, now: int, dice: Dice)
    requires IsLone(Run(env, start, turns), id, trigger, kind, Some(at), sent)
    ensures var turn := Turn(now, dice, Timer);
            && IsLone(Run(env, start, turns + [turn]), id, trigger, kind, Next(env, kind, now, dice(id, trigger)),
                      sent + [TriggerEvent(id, Some(trigger), at)])
            && (IsRun(env, start, turns + [turn]) <==>
                  IsRun(env, start, turns) && ClockOf(start, turns) <= now && at <= now)
  {
    hide Run, IsRun, Next, Again;
    var e := Entry(id, trigger, at);
    RunOneMore(env, start, turns, Turn(now, dice, Timer));
    FirstIsUnique(multiset{e}, e, First(multiset{e}));
    LoneEntries(env, id, trigger, kind, now, dice);
  }
}

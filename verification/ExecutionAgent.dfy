/** The protocol's steps as methods over the shared execution manager and run store. */
module ExecutionAgents {
  import opened Options
  import opened Triggers
  import opened Rfc3339
  import opened RunStores
  import opened ActionChains
  import opened ExecutionManagers
  import opened ExecutionProtocol

  class Agent {
    const store: RunStore
    const maxConcurrent: nat
    var manager: ExecutionManager
    var runs: map<ExecutionId, InFlight>
    var activeExecutions: set<ExecutionId>
    ghost var used: set<ExecutionId>
    ghost var slots: map<ExecutionId, TaskId>
    ghost var lost: map<ExecutionId, TaskId>

    ghost predicate Valid()
      reads this, store, manager
    {
      manager.maxConcurrent == maxConcurrent && Inv(View())
    }

    ghost function View(): State
      reads this, store, manager
    {
      State(maxConcurrent, manager.available, manager.counts, runs, store.tasks, store.rows, activeExecutions,
            used, slots, lost)
    }

    /** Start-up over an existing table: recover it, then start with an empty manager. */
    constructor (store: RunStore, maxConcurrent: nat)
      requires ForeignKeys(store.tasks, store.rows)
      modifies store
      ensures Valid() && this.store == store && fresh(manager)
      ensures View() == Initial(maxConcurrent, old(store.tasks), old(store.rows))
    {
      this.store, this.maxConcurrent := store, maxConcurrent;
      runs, activeExecutions, used, slots, lost := map[], {}, store.rows.Keys, map[], map[];
      manager := new ExecutionManager(maxConcurrent);
      new;
      ghost var rows := store.rows;
      var _ := store.RecoverDanglingExecutions();
      InitialInv(maxConcurrent, store.tasks, rows);
    }

    method Arrive(id: ExecutionId, task: TaskId, policy: ConcurrencyPolicy, manual: bool) returns (ok: bool)
      requires Valid() && Enabled(View(), Step.Arrive(id, task, policy, manual))
      modifies this, manager
      ensures Valid() && manager == old(manager) && View() == After(old(View()), Step.Arrive(id, task, policy, manual))
      ensures ok <==> id in runs
    {
      hide Inv;
      ghost var before := View();
      StepKeeps(before, Step.Arrive(id, task, policy, manual));
      NotYetInFlight(before, id);
      if task !in store.tasks { return false; }
      ok := manager.TryAcquirePermit();
      if ok {
        used := used + {id};
        runs := runs[id := InFlight(task, policy, manual, HasPermit)];
      }
    }

    method TakeSlot(id: ExecutionId) returns (ok: bool)
      requires Valid() && Enabled(View(), Step.TakeSlot(id))
      modifies this, manager
      ensures Valid() && manager == old(manager) && View() == After(old(View()), Step.TakeSlot(id))
      ensures ok <==> id in runs
    {
      hide Inv, Admits, Acquired;
      CountsAreTallied(View());
      StepKeeps(View(), Step.TakeSlot(id));
      var run := runs[id];
      ok := manager.TryAcquireSlot(run.task, run.policy);
      if ok {
        runs := runs[id := run.(phase := HasSlot)];
        slots := slots[id := run.task];
      } else {
        manager.DropPermit();
        runs := runs - {id};
      }
    }

    method CreateRow(id: ExecutionId, startedAt: Utc, databaseFails: bool)
      requires Valid() && Enabled(View(), Step.CreateRow(id, startedAt, databaseFails))
      modifies this, manager, store
      ensures Valid() && manager == old(manager)
      ensures View() == After(old(View()), Step.CreateRow(id, startedAt, databaseFails))
    {
      hide Inv, Released, RowOf;
      CountsAreTallied(View());
      StepKeeps(View(), Step.CreateRow(id, startedAt, databaseFails));
      var run := runs[id];
      var ok := store.CreateRun(Execution(id, run.task, Running, startedAt, None, None, None), databaseFails);
      if !ok {
        manager.ReleaseSlot(run.task);
        slots := slots - {id};
        runs := runs[id := run.(phase := NoSlot)];
      } else {
        activeExecutions := activeExecutions + {id};
        runs := runs[id := run.(phase := if run.manual then HasRow else Acting)];
      }
    }

    method Answer(id: ExecutionId, serialised: bool)
      requires Valid() && Enabled(View(), Step.Answer(id, serialised))
      modifies this, manager
      ensures Valid() && manager == old(manager) && View() == After(old(View()), Step.Answer(id, serialised))
    {
      hide Inv;
      StepKeeps(View(), Step.Answer(id, serialised));
      if serialised {
        runs := runs[id := runs[id].(phase := Acting)];
      } else {
        lost := lost[id := runs[id].task];
        manager.DropPermit();
        runs := runs - {id};
      }
    }

    /** Runs the actions and writes the final status; a failing update leaves the row as it was. */
    method Finish(id: ExecutionId, actions: seq<Action>, finishedAt: Utc, databaseFails: bool)
      requires Valid() && Enabled(View(), Step.Finish(id, actions, finishedAt, databaseFails))
      modifies this, store
      ensures Valid() && manager == old(manager)
      ensures View() == After(old(View()), Step.Finish(id, actions, finishedAt, databaseFails))
    {
      hide Inv, Text;
      StepKeeps(View(), Step.Finish(id, actions, finishedAt, databaseFails));
      var run := runs[id];
      var result, _ := RunActions(actions);
      var exec := Execution(id, run.task, result.status, finishedAt, Some(finishedAt), result.exitCode, result.error);
      var _ := store.UpdateRun(exec, databaseFails);
      runs := runs[id := run.(phase := Ended)];
    }

    method Release(id: ExecutionId)
      requires Valid() && Enabled(View(), Step.Release(id))
      modifies this, manager
      ensures Valid() && manager == old(manager) && View() == After(old(View()), Step.Release(id))
    {
      hide Inv, Released;
      CountsAreTallied(View());
      StepKeeps(View(), Step.Release(id));
      activeExecutions := activeExecutions - {id};
      manager.ReleaseSlot(runs[id].task);
      slots := slots - {id};
      runs := runs[id := runs[id].(phase := NoSlot)];
    }

    method Leave(id: ExecutionId)
      requires Valid() && Enabled(View(), Step.Leave(id))
      modifies this, manager
      ensures Valid() && manager == old(manager) && View() == After(old(View()), Step.Leave(id))
    {
      hide Inv;
      StepKeeps(View(), Step.Leave(id));
      manager.DropPermit();
      runs := runs - {id};
    }

    method Purge(task: TaskId, before: Utc)
      requires Valid()
      modifies store
      ensures Valid() && View() == After(old(View()), Step.Purge(task, before))
    {
      hide Inv, Text;
      StepKeeps(View(), Step.Purge(task, before));
      var _ := store.PurgeExpiredRuns(task, before);
    }

    method SaveTask(task: TaskId)
      requires Valid()
      modifies store
      ensures Valid() && View() == After(old(View()), Step.SaveTask(task))
    {
      hide Inv;
      StepKeeps(View(), Step.SaveTask(task));
      store.SaveTask(task);
    }

    /** Nothing stops a run whose task goes: it only loses its row. */
    method DeleteTask(task: TaskId)
      requires Valid()
      modifies store
      ensures Valid() && View() == After(old(View()), Step.DeleteTask(task))
    {
      hide Inv, WithoutRunsOf;
      StepKeeps(View(), Step.DeleteTask(task));
      store.DeleteTask(task);
    }

    method CrashAndRestart()
      requires Valid()
      modifies this, store
      ensures Valid() && fresh(manager) && View() == After(old(View()), Step.Restart)
    {
      hide Inv;
      StepKeeps(View(), Step.Restart);
      runs, activeExecutions, slots, lost := map[], {}, map[], map[];
      manager := new ExecutionManager(maxConcurrent);
      var _ := store.RecoverDanglingExecutions();
    }
  }

  lemma CountsAreTallied(s: State)
    requires Inv(s)
    ensures NoZeroEntries(s.counts)
  { }

  lemma NotYetInFlight(s: State, id: ExecutionId)
    requires Inv(s) && id !in s.used
    ensures id !in s.runs
  {
    assert TablesFit(s, id);
  }
}

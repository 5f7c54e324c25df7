/** The scheduler loop's arms as methods over the queue and the task registry. */
module Schedulers {
  import opened Options
  import opened Triggers
  import opened Evaluator
  import opened Queues
  import opened SchedulerModel

  class Scheduler {
    const env: Env
    const queue: ScheduleQueue
    var registeredTasks: map<TaskId, Task>
    var lastWall: int
    /** Everything put on the event channel, in order. */
    var sent: seq<TriggerEvent>

    ghost predicate Valid()
      reads this, queue
    {
      queue.Valid() && Keyed(registeredTasks)
    }

    ghost function View(): State
      reads this, queue
    {
      State(queue.Contents(), registeredTasks, lastWall, sent)
    }

    constructor (env: Env, now: int)
      ensures Valid() && fresh(queue) && this.env == env
      ensures View() == State(multiset{}, map[], now, [])
    {
      this.env := env;
      queue := new ScheduleQueue();
      registeredTasks, lastWall, sent := map[], now, [];
    }

    /** Queues the next occurrence of one enabled trigger under the given (current) generation. */
    method Enqueue(id: TaskId, tr: Trigger, generation: nat, now: int, dice: Dice)
      requires Valid() && generation == Generation(queue.generations, id)
      modifies queue
      ensures Valid() && queue.Contents() == old(queue.Contents()) + EntryFor(env, id, tr, now, dice)
      ensures forall t :: Generation(queue.generations, t) == old(Generation(queue.generations, t))
    {
      hide Live, Next;
      if tr.enabled {
        var next := EvaluateNextOccurrence(env, tr.kind, now, dice(id, tr.id));
        if next.Some? {
          queue.Push(ScheduledItem(id, tr.id, next.value, generation));
        }
      }
    }

    method EnqueueTask(task: Task, generation: nat, now: int, dice: Dice)
      requires Valid() && generation == Generation(queue.generations, task.id)
      modifies queue
      ensures Valid() && queue.Contents() == old(queue.Contents()) + Fresh(env, task, now, dice)
      ensures forall t :: Generation(queue.generations, t) == old(Generation(queue.generations, t))
    {
      hide Live, EntryFor;
      if task.enabled {
        for i := 0 to |task.triggers|
          invariant Valid()
          invariant queue.Contents() == old(queue.Contents()) + EntriesFor(env, task.id, task.triggers[..i], now, dice)
          invariant forall t :: Generation(queue.generations, t) == old(Generation(queue.generations, t))
        {
          Enqueue(task.id, task.triggers[i], generation, now, dice);
          assert task.triggers[..i + 1][..i] == task.triggers[..i];
        }
        assert task.triggers[..|task.triggers|] == task.triggers;
      }
    }

    method AddTask(task: Task, now: int, dice: Dice)
      requires Valid()
      modifies this, queue
      ensures Valid() && View() == AfterAdd(env, old(View()), task, now, dice)
    {
      hide Live, Fresh;
      var generation := queue.BumpGeneration(task.id);
      EnqueueTask(task, generation, now, dice);
      registeredTasks := registeredTasks[task.id := task];
    }

    method RemoveTask(id: TaskId)
      requires Valid()
      modifies this, queue
      ensures Valid() && View() == AfterRemove(old(View()), id)
    {
      hide Live;
      registeredTasks := registeredTasks - {id};
      var _ := queue.BumpGeneration(id);
    }

    method TriggerNow(id: TaskId, now: int)
      requires Valid()
      modifies this`sent
      ensures Valid() && View() == AfterTriggerNow(old(View()), id, now)
    {
      sent := sent + [TriggerEvent(id, None, now)];
    }

    method EnqueueAgain(item: ScheduledItem, now: int, dice: Dice)
      requires Valid() && IsCurrent(item, queue.generations)
      modifies queue
      ensures Valid()
      ensures queue.Contents() == old(queue.Contents()) + Again(env, registeredTasks, EntryOf(item), now, dice)
    {
      hide Live, EntryFor, FindTrigger;
      if item.task in registeredTasks {
        var task := registeredTasks[item.task];
        var generation := queue.CurrentGeneration(task.id);
        if task.enabled && item.generation == generation {
          var tr := FindTrigger(task.triggers, item.trigger);
          if tr.Some? {
            Enqueue(task.id, tr.value, generation, now, dice);
          }
        }
      }
    }

    /** The timer arm: fire the first valid entry and queue its trigger's next occurrence. */
    method TimerFires(now: int, dice: Dice)
      requires Valid()
      modifies this`sent, queue
      ensures Valid() && View() == AfterTimer(env, old(View()), now, dice)
    {
      hide Live, IsFirst, Again, Before;
      var popped := queue.Pop();
      if popped.Some? {
        var item := popped.value;
        ghost var live := old(queue.Contents());
        FirstIsUnique(live, EntryOf(item), First(live));
        EnqueueAgain(item, now, dice);
        sent := sent + [TriggerEvent(item.task, Some(item.trigger), item.at)];
      }
    }

    /** The ten-second tick: rebuild the whole queue when wall and monotonic clocks have drifted apart. */
    method Tick(now: int, monotonicSeconds: int, dice: Dice)
      requires Valid()
      modifies this`lastWall, queue
      ensures Valid() && View() == AfterTick(env, old(View()), now, monotonicSeconds, dice)
    {
      hide Live;
      if ClockJumped(lastWall, now, monotonicSeconds) {
        Rebuild(now, dice);
      }
      lastWall := now;
    }

    method Rebuild(now: int, dice: Dice)
      requires Valid()
      modifies queue
      ensures Valid() && queue.Contents() == FreshAll(env, registeredTasks, now, dice)
    {
      hide Live, Fresh, FreshAll, Except;
      queue.Clear();
      NothingFresh(env, registeredTasks, now, dice);
      var todo := registeredTasks.Keys;
      while todo != {}
        invariant Valid() && todo <= registeredTasks.Keys
        invariant queue.Contents() == FreshAll(env, Except(registeredTasks, todo), now, dice)
        decreases |todo|
      {
        var id :| id in todo;
        var task := registeredTasks[id];
        var generation := queue.CurrentGeneration(task.id);
        EnqueueTask(task, generation, now, dice);
        OneMoreTask(env, registeredTasks, todo, id, now, dice);
        todo := todo - {id};
      }
    }

    method RerollTrigger(id: TaskId, trigger: TriggerId, now: int, dice: Dice) returns (reply: RerollReply)
      requires Valid()
      modifies queue
      ensures Valid() && View() == AfterReroll(env, old(View()), id, trigger, now, dice)
      ensures reply == RerollAnswer(env, old(View()), id, trigger, now, dice)
      ensures reply.Ok? ==> NoStaleItems(id)
    {
      if id !in registeredTasks { return Err(NotRegistered); }
      var task := registeredTasks[id];
      if !task.enabled { return Err(TaskDisabled); }
      var found := FindTrigger(task.triggers, trigger);
      if found.None? { return Err(NoSuchTrigger); }
      var tr := found.value;
      if !tr.enabled { return Err(TriggerDisabled); }
      var next := Requeue(id, tr, now, dice);
      return Ok(next);
    }

    ghost predicate NoStaleItems(id: TaskId)
      reads queue
    {
      forall item | item in queue.heap && item.task == id :: IsCurrent(item, queue.generations)
    }

    /** The part of a reroll after its checks: drain the task's items and queue them again under a new generation. */
    method Requeue(id: TaskId, tr: Trigger, now: int, dice: Dice) returns (newNext: Option<int>)
      requires Valid()
      modifies queue
      ensures Valid() && newNext == Next(env, tr.kind, now, dice(id, tr.id))
      ensures queue.Contents() == Rerolled(old(queue.Contents()), id, tr.id, newNext)
      ensures NoStaleItems(id)
    {
      hide Live, Next, Moved, Landed, Entries, HasTrigger, Rerolled, WithoutTask, OfTask, NoStaleItems;
      var valid, generation := Drain(id);
      RerolledIsMoved(old(queue.Contents()), id, tr.id, Next(env, tr.kind, now, dice(id, tr.id)), valid);
      var targetRerolled;
      targetRerolled, newNext := RequeueItems(valid, id, tr, generation, now, dice);
      if !targetRerolled {
        newNext := RequeueMissing(id, tr, generation, now, dice);
      }
    }

    /** Removes the task's items, keeps those of the current generation and opens a new one. */
    method Drain(id: TaskId) returns (valid: seq<ScheduledItem>, newGeneration: nat)
      requires Valid()
      modifies queue
      ensures Valid() && queue.Contents() == WithoutTask(old(queue.Contents()), id)
      ensures newGeneration == Generation(queue.generations, id) && NoStaleItems(id)
      ensures (forall item | item in valid :: item.task == id) && Entries(valid) == OfTask(old(queue.Contents()), id)
    {
      hide Live, Entries;
      var oldGeneration := queue.CurrentGeneration(id);
      var taken := queue.TakeTaskItems(id);
      valid := WithGeneration(taken, oldGeneration);
      ValidItemsAreTheEntries(old(queue.heap), old(queue.generations), id, taken, valid);
      newGeneration := queue.BumpGeneration(id);
      WithoutTaskTwice(old(queue.Contents()), id);
    }

    /** The target had no entry: queue its next occurrence, if it has one. */
    method RequeueMissing(id: TaskId, tr: Trigger, generation: nat, now: int, dice: Dice) returns (newNext: Option<int>)
      requires Valid() && generation == Generation(queue.generations, id) && NoStaleItems(id)
      modifies queue
      ensures Valid() && NoStaleItems(id)
      ensures newNext == Next(env, tr.kind, now, dice(id, tr.id))
      ensures queue.Contents() == old(queue.Contents()) + Landed(id, tr.id, newNext, 1)
    {
      hide Live, Next;
      newNext := EvaluateNextOccurrence(env, tr.kind, now, dice(id, tr.id));
      LandedOnce(id, tr.id, newNext);
      if newNext.Some? {
        queue.Push(ScheduledItem(id, tr.id, newNext.value, generation));
      }
    }

    method RequeueItems(valid: seq<ScheduledItem>, id: TaskId, tr: Trigger, generation: nat, now: int, dice: Dice)
      returns (targetRerolled: bool, newNext: Option<int>)
      requires Valid() && generation == Generation(queue.generations, id) && NoStaleItems(id)
      requires forall item | item in valid :: item.task == id
      modifies queue
      ensures Valid() && generation == Generation(queue.generations, id) && NoStaleItems(id)
      ensures var next := Next(env, tr.kind, now, dice(id, tr.id));
              && queue.Contents() == old(queue.Contents()) + Moved(valid, tr.id, next)
              && targetRerolled == HasTrigger(valid, tr.id)
              && newNext == if targetRerolled then next else None
    {
      hide Live, Next, MovedOne, HasTrigger, Moved;
      ghost var next := Next(env, tr.kind, now, dice(id, tr.id));
      targetRerolled, newNext := false, None;
      NothingMoved(tr.id, next);
      for i := 0 to |valid|
        invariant Valid() && generation == Generation(queue.generations, id) && NoStaleItems(id)
        invariant queue.Contents() == old(queue.Contents()) + Moved(valid[..i], tr.id, next)
        invariant targetRerolled == HasTrigger(valid[..i], tr.id)
        invariant newNext == if targetRerolled then next else None
      {
        assert valid[..i + 1] == valid[..i] + [valid[i]] && valid[i] in valid;
        OneMoreItem(valid[..i], valid[i], tr.id, next);
        HasTriggerOneMore(valid[..i], valid[i], tr.id);
        var rerolled := RequeueItem(valid[i], tr, generation, now, dice);
        if valid[i].trigger == tr.id {
          targetRerolled, newNext := true, rerolled;
        }
      }
      assert valid[..|valid|] == valid;
    }

    /** Queues one drained item again, at the trigger's next occurrence if it is the rerolled one. */
    method RequeueItem(drained: ScheduledItem, tr: Trigger, generation: nat, now: int, dice: Dice)
      returns (rerolled: Option<int>)
      requires Valid() && generation == Generation(queue.generations, drained.task) && NoStaleItems(drained.task)
      modifies queue
      ensures Valid() && generation == Generation(queue.generations, drained.task) && NoStaleItems(drained.task)
      ensures queue.Contents() == old(queue.Contents())
                + MovedOne(drained, tr.id, Next(env, tr.kind, now, dice(drained.task, tr.id)))
      ensures drained.trigger == tr.id ==> rerolled == Next(env, tr.kind, now, dice(drained.task, tr.id))
    {
      hide Live, Next;
      rerolled := None;
      var item := drained;
      if item.trigger == tr.id {
        LandedOnce(item.task, tr.id, Next(env, tr.kind, now, dice(item.task, tr.id)));
        rerolled := EvaluateNextOccurrence(env, tr.kind, now, dice(item.task, tr.id));
        if rerolled.None? { return; }
        item := item.(at := rerolled.value);
      }
      item := item.(generation := generation);
      queue.Push(item);
    }
  }

  lemma LandedOnce(id: TaskId, trigger: TriggerId, next: Option<int>)
    ensures Landed(id, trigger, next, 1)
         == match next case Some(t) => multiset{Entry(id, trigger, t)} case None => multiset{}
  { }

  lemma NothingMoved(trigger: TriggerId, next: Option<int>)
    ensures Moved([], trigger, next) == multiset{} && !HasTrigger([], trigger)
  { }

  lemma WithoutTaskTwice(m: multiset<Entry>, id: TaskId)
    ensures WithoutTask(WithoutTask(m, id), id) == WithoutTask(m, id)
  { }

  method WithGeneration(items: seq<ScheduledItem>, generation: nat) returns (kept: seq<ScheduledItem>)
    ensures forall item :: multiset(kept)[item] == if item.generation == generation then multiset(items)[item] else 0
  {
    kept := [];
    for i := 0 to |items|
      invariant forall item :: multiset(kept)[item] == if item.generation == generation
          then multiset(items[..i])[item] else 0
    {
      assert items[..i + 1] == items[..i] + [items[i]];
      if items[i].generation == generation { kept := kept + [items[i]]; }
    }
    assert items[..|items|] == items;
  }

  ghost function Except(tasks: map<TaskId, Task>, todo: set<TaskId>): (r: map<TaskId, Task>)
    ensures Keyed(tasks) ==> Keyed(r)
    ensures todo == {} ==> r == tasks
  {
    map id | id in tasks && id !in todo :: tasks[id]
  }

  lemma NothingFresh(env: Env, tasks: map<TaskId, Task>, now: int, dice: Dice)
    requires Keyed(tasks)
    ensures FreshAll(env, Except(tasks, tasks.Keys), now, dice) == multiset{}
  {
    assert Except(tasks, tasks.Keys) == map[];
  }

  lemma OneMoreTask(env: Env, tasks: map<TaskId, Task>, todo: set<TaskId>, id: TaskId, now: int, dice: Dice)
    requires Keyed(tasks) && todo <= tasks.Keys && id in todo
    ensures FreshAll(env, Except(tasks, todo - {id}), now, dice)
         == FreshAll(env, Except(tasks, todo), now, dice) + Fresh(env, tasks[id], now, dice)
  {
    hide Fresh, FreshAll;
  }

  /** The entries of a list of items, counted. */
  ghost function Entries(items: seq<ScheduledItem>): multiset<Entry> {
    if items == [] then multiset{} else Entries(items[..|items| - 1]) + multiset{EntryOf(items[|items| - 1])}
  }

  /** Where one item ends up when those of `trigger` move to `next`. */
  ghost function MovedOne(item: ScheduledItem, trigger: TriggerId, next: Option<int>): multiset<Entry> {
    if item.trigger != trigger then multiset{EntryOf(item)} else Landed(item.task, trigger, next, 1)
  }

  ghost function Moved(items: seq<ScheduledItem>, trigger: TriggerId, next: Option<int>): multiset<Entry> {
    if items == [] then multiset{}
    else Moved(items[..|items| - 1], trigger, next) + MovedOne(items[|items| - 1], trigger, next)
  }

  lemma OneMoreItem(items: seq<ScheduledItem>, item: ScheduledItem, trigger: TriggerId, next: Option<int>)
    ensures Moved(items + [item], trigger, next) == Moved(items, trigger, next) + MovedOne(item, trigger, next)
    ensures Entries(items + [item]) == Entries(items) + multiset{EntryOf(item)}
  {
    assert (items + [item])[..|items|] == items;
  }

  lemma {:induction false} EntriesCount(items: seq<ScheduledItem>, generations: Generations)
    requires forall item | item in items :: IsCurrent(item, generations)
    ensures forall e :: Entries(items)[e] == multiset(items)[Current(e, generations)]
  {
    if items != [] {
      var n := |items| - 1;
      EntriesCount(items[..n], generations);
      assert items == items[..n] + [items[n]] && items[n] in items;
      assert forall e :: Current(e, generations) == items[n] <==> e == EntryOf(items[n]);
    }
  }

  /** Taking a task's items and keeping those of the current generation yields exactly its live entries. */
  lemma ValidItemsAreTheEntries(heap: multiset<ScheduledItem>, generations: Generations, id: TaskId,
                                taken: seq<ScheduledItem>, valid: seq<ScheduledItem>)
    requires forall item :: multiset(taken)[item] == if item.task == id then heap[item] else 0
    requires forall item :: multiset(valid)[item] == if item.generation == Generation(generations, id)
        then multiset(taken)[item] else 0
    ensures forall item | item in valid :: item.task == id
    ensures Entries(valid) == OfTask(Live(heap, generations), id)
  {
    hide Live, OfTask;
    forall item | item in valid ensures item.task == id && IsCurrent(item, generations) {
      assert multiset(valid)[item] > 0;
    }
    EntriesCount(valid, generations);
  }

  lemma LandedOneMore(id: TaskId, trigger: TriggerId, next: Option<int>, k: nat)
    ensures Landed(id, trigger, next, k + 1) == Landed(id, trigger, next, k) + Landed(id, trigger, next, 1)
    ensures Landed(id, trigger, next, 0) == multiset{}
  { }

  lemma TargetOneMore(m: multiset<Entry>, e: Entry, trigger: TriggerId)
    ensures var t := OfTrigger(m, trigger);
            var t' := OfTrigger(m + multiset{e}, trigger);
            if e.trigger == trigger then t' == t + multiset{e} && m + multiset{e} - t' == m - t
            else t' == t && m + multiset{e} - t' == m - t + multiset{e}
  {
    hide OfTrigger;
    var t := OfTrigger(m, trigger);
    if e.trigger == trigger {
      assert OfTrigger(m + multiset{e}, trigger) == t + multiset{e};
    } else {
      assert OfTrigger(m + multiset{e}, trigger) == t;
    }
  }

  lemma {:induction false} MovedSplits(items: seq<ScheduledItem>, id: TaskId, trigger: TriggerId, next: Option<int>)
    requires forall item | item in items :: item.task == id
    ensures var target := OfTrigger(Entries(items), trigger);
            Moved(items, trigger, next) == Entries(items) - target + Landed(id, trigger, next, |target|)
  {
    if items == [] {
      assert OfTrigger(Entries(items), trigger) == multiset{};
      LandedOneMore(id, trigger, next, 0);
    } else {
      var n := |items| - 1;
      assert items == items[..n] + [items[n]] && items[n] in items;
      MovedSplits(items[..n], id, trigger, next);
      MovedSplitsOneMore(items[..n], items[n], trigger, next);
    }
  }

  lemma MovedSplitsOneMore(items: seq<ScheduledItem>, item: ScheduledItem, trigger: TriggerId, next: Option<int>)
    requires var target := OfTrigger(Entries(items), trigger);
             Moved(items, trigger, next) == Entries(items) - target + Landed(item.task, trigger, next, |target|)
    ensures var more := items + [item];
            var target := OfTrigger(Entries(more), trigger);
            Moved(more, trigger, next) == Entries(more) - target + Landed(item.task, trigger, next, |target|)
  {
    hide OfTrigger, Landed, Entries, Moved;
    OneMoreItem(items, item, trigger, next);
    TargetOneMore(Entries(items), EntryOf(item), trigger);
    var target := OfTrigger(Entries(items), trigger);
    LandedOneMore(item.task, trigger, next, |target|);
    Regroup(Entries(items) - target, Landed(item.task, trigger, next, |target|), multiset{EntryOf(item)});
  }

  lemma Regroup(a: multiset<Entry>, b: multiset<Entry>, c: multiset<Entry>)
    ensures a + b + c == a + c + b
  { }

  lemma {:induction false} TargetAmongItems(items: seq<ScheduledItem>, trigger: TriggerId)
    ensures OfTrigger(Entries(items), trigger) != multiset{} <==> HasTrigger(items, trigger)
  {
    hide OfTrigger;
    if items == [] {
      assert OfTrigger(Entries(items), trigger) == multiset{};
    } else {
      var n := |items| - 1;
      TargetAmongItems(items[..n], trigger);
      TargetOneMore(Entries(items[..n]), EntryOf(items[n]), trigger);
      HasTriggerOneMore(items[..n], items[n], trigger);
      assert items == items[..n] + [items[n]];
    }
  }

  ghost predicate HasTrigger(items: seq<ScheduledItem>, trigger: TriggerId) {
    exists i :: 0 <= i < |items| && items[i].trigger == trigger
  }

  lemma HasTriggerOneMore(items: seq<ScheduledItem>, item: ScheduledItem, trigger: TriggerId)
    ensures HasTrigger(items + [item], trigger) <==> HasTrigger(items, trigger) || item.trigger == trigger
  {
    if HasTrigger(items, trigger) {
      var i :| 0 <= i < |items| && items[i].trigger == trigger;
      assert (items + [item])[i].trigger == trigger;
    }
    if item.trigger == trigger {
      assert (items + [item])[|items|].trigger == trigger;
    }
  }

  lemma RerolledIsMoved(m: multiset<Entry>, id: TaskId, trigger: TriggerId, next: Option<int>,
      valid: seq<ScheduledItem>)
    requires forall item | item in valid :: item.task == id
    requires Entries(valid) == OfTask(m, id)
    ensures Rerolled(m, id, trigger, next)
         == if HasTrigger(valid, trigger) then WithoutTask(m, id) + Moved(valid, trigger, next)
            else WithoutTask(m, id) + Moved(valid, trigger, next) + Landed(id, trigger, next, 1)
  {
    hide OfTask, OfTrigger, WithoutTask, Landed;
    MovedSplits(valid, id, trigger, next);
    TargetAmongItems(valid, trigger);
    var target := OfTrigger(Entries(valid), trigger);
    WithoutKeySplits(m, id, trigger);
    LandedOneMore(id, trigger, next, 0);
  }

  lemma WithoutKeySplits(m: multiset<Entry>, id: TaskId, trigger: TriggerId)
    ensures m - OfKey(m, id, trigger) == WithoutTask(m, id) + (OfTask(m, id) - OfTrigger(OfTask(m, id), trigger))
  {
    hide OfTask, OfTrigger, WithoutTask;
  }
}

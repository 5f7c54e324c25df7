/** What every scheduler step keeps: one entry per trigger, agreement with the registry, and order. */
module SchedulerSteps {
  import opened Options
  import opened Triggers
  import opened Evaluator
  import opened Recurrence
  import opened Queues
  import opened SchedulerModel

  predicate DistinctTriggers(task: Task) {
    forall i, j | 0 <= i < j < |task.triggers| :: task.triggers[i].id != task.triggers[j].id
  }

  predicate SameTrigger(e: Entry, f: Entry) {
    e.task == f.task && e.trigger == f.trigger
  }

  ghost predicate OnePerTrigger(m: multiset<Entry>) {
    && (forall e | e in m :: m[e] == 1)
    && (forall e, f | e in m && f in m && SameTrigger(e, f) :: e == f)
  }

  ghost predicate HasEntry(m: multiset<Entry>, id: TaskId, trigger: TriggerId) {
    exists at :: Entry(id, trigger, at) in m
  }

  // ---------- the entries one evaluation makes ----------

  /** `tr` is enabled and its next occurrence after `now` is at `e`. */
  ghost predicate Yields(env: Env, id: TaskId, tr: Trigger, now: int, dice: Dice, e: Entry) {
    tr.enabled && e.task == id && e.trigger == tr.id && Next(env, tr.kind, now, dice(id, tr.id)) == Some(e.at)
  }

  lemma EntryForCounts(env: Env, id: TaskId, tr: Trigger, now: int, dice: Dice, e: Entry)
    ensures EntryFor(env, id, tr, now, dice)[e] == if Yields(env, id, tr, now, dice, e) then 1 else 0
  {
    hide Next;
  }

  ghost predicate SomeYields(env: Env, id: TaskId, triggers: seq<Trigger>, now: int, dice: Dice, e: Entry) {
    exists tr :: tr in triggers && Yields(env, id, tr, now, dice, e)
  }

  lemma {:induction false} EntriesForCounts(env: Env, id: TaskId, triggers: seq<Trigger>, now: int, dice: Dice,
      e: Entry)
    requires forall i, j | 0 <= i < j < |triggers| :: triggers[i].id != triggers[j].id
    ensures EntriesFor(env, id, triggers, now, dice)[e] == if SomeYields(env, id, triggers, now, dice, e) then 1 else 0
  {
    hide EntryFor, Next;
    if triggers != [] {
      var n := |triggers| - 1;
      var last := triggers[n];
      EntriesForCounts(env, id, triggers[..n], now, dice, e);
      EntryForCounts(env, id, last, now, dice, e);
      assert triggers == triggers[..n] + [last];
      if Yields(env, id, last, now, dice, e) {
        assert last in triggers;
        assert forall tr | tr in triggers[..n] :: tr.id != last.id;
      }
      assert forall tr | tr in triggers :: tr in triggers[..n] || tr == last;
    }
  }

  ghost predicate FreshlyMade(env: Env, task: Task, now: int, dice: Dice, e: Entry) {
    task.enabled && SomeYields(env, task.id, task.triggers, now, dice, e)
  }

  lemma FreshCounts(env: Env, task: Task, now: int, dice: Dice, e: Entry)
    requires DistinctTriggers(task)
    ensures Fresh(env, task, now, dice)[e] == if FreshlyMade(env, task, now, dice, e) then 1 else 0
  {
    hide EntriesFor, SomeYields;
    if task.enabled { EntriesForCounts(env, task.id, task.triggers, now, dice, e); }
  }

  /** The entry names an enabled task of the registry and an enabled trigger of that task. */
  ghost predicate Registered(tasks: map<TaskId, Task>, e: Entry) {
    && e.task in tasks && tasks[e.task].enabled
    && exists tr :: tr in tasks[e.task].triggers && tr.id == e.trigger && tr.enabled
  }

  /** What a batch of newly made entries looks like. */
  ghost predicate Batch(tasks: map<TaskId, Task>, m: multiset<Entry>, now: int) {
    && OnePerTrigger(m)
    && forall e | e in m :: e.at > now && Registered(tasks, e)
  }

  lemma FreshIsBatch(env: Env, task: Task, now: int, dice: Dice, tasks: map<TaskId, Task>)
    requires DistinctTriggers(task) && task.id in tasks && tasks[task.id] == task
    ensures Batch(tasks, Fresh(env, task, now, dice), now)
  {
    hide Fresh, Next;
    var m := Fresh(env, task, now, dice);
    forall e | e in m ensures m[e] == 1 && e.at > now && Registered(tasks, e) {
      FreshCounts(env, task, now, dice, e);
      var tr :| tr in task.triggers && Yields(env, task.id, tr, now, dice, e);
      NextIsAfter(env, tr.kind, now, dice(task.id, tr.id));
    }
    forall e, f | e in m && f in m && SameTrigger(e, f) ensures e == f {
      FreshCounts(env, task, now, dice, e);
      FreshCounts(env, task, now, dice, f);
      var tr :| tr in task.triggers && Yields(env, task.id, tr, now, dice, e);
      var tr' :| tr' in task.triggers && Yields(env, task.id, tr', now, dice, f);
      assert tr == tr';
    }
  }

  ghost predicate GoodTasks(tasks: map<TaskId, Task>) {
    Keyed(tasks) && forall id | id in tasks :: DistinctTriggers(tasks[id])
  }

  lemma FreshAllIsBatch(env: Env, tasks: map<TaskId, Task>, now: int, dice: Dice)
    requires GoodTasks(tasks)
    ensures Batch(tasks, FreshAll(env, tasks, now, dice), now)
  {
    hide FreshAll, Fresh, DistinctTriggers, Registered;
    var m := FreshAll(env, tasks, now, dice);
    forall e | e in m ensures e.task in tasks && m[e] == Fresh(env, tasks[e.task], now, dice)[e]
                              && Batch(tasks, Fresh(env, tasks[e.task], now, dice), now)
    {
      FreshIsBatch(env, tasks[e.task], now, dice, tasks);
    }
  }

  lemma AgainIsBatch(env: Env, tasks: map<TaskId, Task>, e: Entry, now: int, dice: Dice)
    ensures Batch(tasks, Again(env, tasks, e, now, dice), now)
    ensures forall f | f in Again(env, tasks, e, now, dice) :: SameTrigger(e, f)
  {
    hide EntryFor, Next, FindTrigger;
    var m := Again(env, tasks, e, now, dice);
    if m != multiset{} {
      var tr := FindTrigger(tasks[e.task].triggers, e.trigger).value;
      forall f | f in m
        ensures m[f] == 1 && SameTrigger(e, f) && f.at > now && Registered(tasks, f)
        ensures Next(env, tr.kind, now, dice(e.task, tr.id)) == Some(f.at)
      {
        EntryForCounts(env, e.task, tr, now, dice, f);
        NextIsAfter(env, tr.kind, now, dice(e.task, tr.id));
      }
    }
  }

  // ---------- the invariant ----------

  ghost predicate IsTimed(v: TriggerEvent) { v.trigger.Some? }

  ghost predicate OfEntry(v: TriggerEvent, e: Entry) {
    v.task == e.task && v.trigger == Some(e.trigger)
  }

  /** Timed events come in time order, and strictly so per trigger. */
  ghost predicate Ordered(sent: seq<TriggerEvent>) {
    forall i, j | 0 <= i < j < |sent| && IsTimed(sent[i]) && IsTimed(sent[j]) ::
      && sent[i].scheduledAt <= sent[j].scheduledAt
      && (sent[i].task == sent[j].task && sent[i].trigger == sent[j].trigger
          ==> sent[i].scheduledAt < sent[j].scheduledAt)
  }

  /** No upcoming entry is before an event already sent, and none repeats one. */
  ghost predicate Ahead(m: multiset<Entry>, sent: seq<TriggerEvent>) {
    forall e, v | e in m && v in sent && IsTimed(v) ::
      v.scheduledAt <= e.at && (OfEntry(v, e) ==> v.scheduledAt < e.at)
  }

  ghost predicate PastEvents(sent: seq<TriggerEvent>, clock: int) {
    forall v | v in sent && IsTimed(v) :: v.scheduledAt <= clock
  }

  /** Every trigger whose kind does not run out by `now` has an entry. */
  ghost predicate Covered(env: Env, m: multiset<Entry>, tasks: map<TaskId, Task>, now: int) {
    forall id, tr | id in tasks && tasks[id].enabled && tr in tasks[id].triggers && tr.enabled
        && HasNextUntil(env, tr.kind, now) ::
      HasEntry(m, id, tr.id)
  }

  ghost predicate Agrees(m: multiset<Entry>, tasks: map<TaskId, Task>) {
    forall e | e in m :: Registered(tasks, e)
  }

  ghost predicate Inv(env: Env, s: State, clock: int) {
    && GoodTasks(s.tasks)
    && OnePerTrigger(s.live)
    && Agrees(s.live, s.tasks)
    && Covered(env, s.live, s.tasks, clock)
    && Ordered(s.sent) && Ahead(s.live, s.sent) && PastEvents(s.sent, clock)
  }

  /** Keeping some entries and adding a batch for other triggers keeps the entry invariants. */
  lemma KeepAndAdd(s: State, tasks: map<TaskId, Task>, kept: multiset<Entry>, batch: multiset<Entry>, now: int)
    requires OnePerTrigger(s.live) && Ahead(s.live, s.sent) && PastEvents(s.sent, now)
    requires kept <= s.live && Agrees(kept, tasks) && Batch(tasks, batch, now)
    requires forall e, f | e in kept && f in batch :: !SameTrigger(e, f)
    ensures OnePerTrigger(kept + batch) && Agrees(kept + batch, tasks) && Ahead(kept + batch, s.sent)
  {
    hide Registered;
    var m := kept + batch;
    forall e | e in kept ensures e !in batch && kept[e] == 1 && e in s.live {
      assert SameTrigger(e, e);
    }
    assert forall e | e in m :: e in kept || e in batch;
  }

  lemma HasEntryFrom(env: Env, m: multiset<Entry>, id: TaskId, tr: Trigger, now: int, dice: Dice)
    requires HasNextUntil(env, tr.kind, now)
    requires forall at :: Next(env, tr.kind, now, dice(id, tr.id)) == Some(at) ==> Entry(id, tr.id, at) in m
    ensures HasEntry(m, id, tr.id)
  {
    hide Next;
    assert Next(env, tr.kind, now, dice(id, tr.id)).Some?;
    assert Entry(id, tr.id, Next(env, tr.kind, now, dice(id, tr.id)).value) in m;
  }

  lemma FreshCovers(env: Env, task: Task, now: int, dice: Dice, tr: Trigger)
    requires DistinctTriggers(task) && task.enabled
    requires tr in task.triggers && tr.enabled && HasNextUntil(env, tr.kind, now)
    ensures HasEntry(Fresh(env, task, now, dice), task.id, tr.id)
  {
    hide Fresh, Next;
    forall at | Next(env, tr.kind, now, dice(task.id, tr.id)) == Some(at)
      ensures Entry(task.id, tr.id, at) in Fresh(env, task, now, dice)
    {
      var e := Entry(task.id, tr.id, at);
      assert Yields(env, task.id, tr, now, dice, e);
      FreshCounts(env, task, now, dice, e);
    }
    HasEntryFrom(env, Fresh(env, task, now, dice), task.id, tr, now, dice);
  }

  // ---------- each step keeps it ----------

  /** A trigger that has an entry among the kept ones, or gets one, is covered. */
  ghost predicate CoversTrigger(env: Env, m: multiset<Entry>, id: TaskId, tr: Trigger, now: int) {
    tr.enabled && HasNextUntil(env, tr.kind, now) ==> HasEntry(m, id, tr.id)
  }

  lemma CoverageOfOthers(env: Env, m: multiset<Entry>, tasks: map<TaskId, Task>, m': multiset<Entry>, id: TaskId,
      tr: Trigger, now: int)
    requires Covered(env, m, tasks, now)
    requires id in tasks && tasks[id].enabled && tr in tasks[id].triggers
    requires forall at :: Entry(id, tr.id, at) in m ==> Entry(id, tr.id, at) in m'
    ensures CoversTrigger(env, m', id, tr, now)
  {
    hide HasNextUntil;
    if tr.enabled && HasNextUntil(env, tr.kind, now) {
      var at :| Entry(id, tr.id, at) in m;
      assert Entry(id, tr.id, at) in m';
    }
  }

  lemma CoverageByFresh(env: Env, task: Task, now: int, dice: Dice, tr: Trigger, m: multiset<Entry>)
    requires DistinctTriggers(task) && task.enabled && tr in task.triggers
    requires Fresh(env, task, now, dice) <= m
    ensures CoversTrigger(env, m, task.id, tr, now)
  {
    hide HasNextUntil, Fresh, DistinctTriggers;
    if tr.enabled && HasNextUntil(env, tr.kind, now) {
      FreshCovers(env, task, now, dice, tr);
      var at :| Entry(task.id, tr.id, at) in Fresh(env, task, now, dice);
      assert Entry(task.id, tr.id, at) in m;
    }
  }

  lemma AllCovered(env: Env, m: multiset<Entry>, tasks: map<TaskId, Task>, now: int)
    requires forall id, tr | id in tasks && tasks[id].enabled
        && tr in tasks[id].triggers :: CoversTrigger(env, m, id, tr, now)
    ensures Covered(env, m, tasks, now)
  {
    hide HasNextUntil, HasEntry;
    forall id, tr | id in tasks && tasks[id].enabled && tr in tasks[id].triggers && tr.enabled
        && HasNextUntil(env, tr.kind, now)
      ensures HasEntry(m, id, tr.id)
    {
      assert CoversTrigger(env, m, id, tr, now);
    }
  }

  lemma OthersStayRegistered(m: multiset<Entry>, kept: multiset<Entry>, tasks: map<TaskId, Task>,
                              tasks': map<TaskId, Task>)
    requires Agrees(m, tasks) && kept <= m
    requires forall e | e in kept && e.task in tasks :: e.task in tasks' && tasks'[e.task] == tasks[e.task]
    ensures Agrees(kept, tasks')
  {
    forall e | e in kept ensures Registered(tasks', e) { assert e in m; }
  }

  lemma AddKeeps(env: Env, s: State, task: Task, now: int, dice: Dice)
    requires Inv(env, s, now) && DistinctTriggers(task)
    ensures Inv(env, AfterAdd(env, s, task, now, dice), now)
  {
    hide Fresh, DistinctTriggers, Agrees, Batch, Ordered, Ahead, PastEvents, OnePerTrigger, Covered, CoversTrigger;
    var s' := AfterAdd(env, s, task, now, dice);
    var kept, batch := WithoutTask(s.live, task.id), Fresh(env, task, now, dice);
    FreshIsBatch(env, task, now, dice, s'.tasks);
    OthersStayRegistered(s.live, kept, s.tasks, s'.tasks);
    KeepAndAdd(s, s'.tasks, kept, batch, now);
    forall id, tr | id in s'.tasks && s'.tasks[id].enabled && tr in s'.tasks[id].triggers
      ensures CoversTrigger(env, s'.live, id, tr, now)
    {
      if id == task.id {
        CoverageByFresh(env, task, now, dice, tr, s'.live);
      } else {
        CoverageOfOthers(env, s.live, s.tasks, s'.live, id, tr, now);
      }
    }
    AllCovered(env, s'.live, s'.tasks, now);
  }

  lemma RemoveKeeps(env: Env, s: State, id: TaskId, now: int)
    requires Inv(env, s, now)
    ensures Inv(env, AfterRemove(s, id), now)
  {
    hide DistinctTriggers, Agrees, Ordered, Ahead, PastEvents, OnePerTrigger, Covered, CoversTrigger;
    var s' := AfterRemove(s, id);
    OthersStayRegistered(s.live, s'.live, s.tasks, s'.tasks);
    NothingIsBatch(s'.tasks, now);
    KeepAndAdd(s, s'.tasks, s'.live, multiset{}, now);
    assert s'.live + multiset{} == s'.live;
    forall i, tr | i in s'.tasks && s'.tasks[i].enabled && tr in s'.tasks[i].triggers
      ensures CoversTrigger(env, s'.live, i, tr, now)
    {
      CoverageOfOthers(env, s.live, s.tasks, s'.live, i, tr, now);
    }
    AllCovered(env, s'.live, s'.tasks, now);
  }

  lemma NothingIsBatch(tasks: map<TaskId, Task>, now: int)
    ensures Batch(tasks, multiset{}, now)
  { }

  lemma TriggerNowKeeps(env: Env, s: State, id: TaskId, now: int)
    requires Inv(env, s, now)
    ensures Inv(env, AfterTriggerNow(s, id, now), now)
  {
    hide Covered, Registered, DistinctTriggers, OnePerTrigger;
  }

  /** The timer fires an entry that is due. */
  lemma TimerKeeps(env: Env, s: State, now: int, dice: Dice)
    requires Inv(env, s, now)
    requires s.live != multiset{} && First(s.live).at <= now
    ensures Inv(env, AfterTimer(env, s, now, dice), now)
  {
    hide Again, HasNextUntil, DistinctTriggers, Registered;
    var s' := AfterTimer(env, s, now, dice);
    var e := First(s.live);
    var kept, batch := s.live - multiset{e}, Again(env, s.tasks, e, now, dice);
    AgainIsBatch(env, s.tasks, e, now, dice);
    forall f | f in kept ensures f in s.live && !SameTrigger(e, f) { }
    KeepAndAdd(s, s.tasks, kept, batch, now);
    FiredIsNext(s, e, kept, batch, now);
    forall id, tr | id in s'.tasks && s'.tasks[id].enabled && tr in s'.tasks[id].triggers && tr.enabled
        && HasNextUntil(env, tr.kind, now)
      ensures HasEntry(s'.live, id, tr.id)
    {
      if id == e.task && tr.id == e.trigger {
        AgainCovers(env, s.tasks, e, now, dice, tr);
        var at :| Entry(id, tr.id, at) in batch;
        assert Entry(id, tr.id, at) in s'.live;
      } else {
        var at :| Entry(id, tr.id, at) in s.live;
        assert Entry(id, tr.id, at) in s'.live;
      }
    }
  }

  lemma FiredIsNext(s: State, e: Entry, kept: multiset<Entry>, batch: multiset<Entry>, now: int)
    requires IsFirst(e, s.live) && e.at <= now
    requires Ordered(s.sent) && Ahead(s.live, s.sent) && PastEvents(s.sent, now)
    requires kept <= s.live && forall f | f in kept :: !SameTrigger(e, f)
    requires forall f | f in batch :: f.at > now
    requires Ahead(kept + batch, s.sent)
    ensures var sent := s.sent + [TriggerEvent(e.task, Some(e.trigger), e.at)];
            Ordered(sent) && Ahead(kept + batch, sent) && PastEvents(sent, now)
  {
    var v := TriggerEvent(e.task, Some(e.trigger), e.at);
    var sent := s.sent + [v];
    forall f | f in kept + batch ensures e.at <= f.at && (OfEntry(v, f) ==> e.at < f.at) {
      assert f in kept || f in batch;
    }
    forall i | 0 <= i < |s.sent| && IsTimed(s.sent[i])
      ensures s.sent[i].scheduledAt <= e.at && (OfEntry(s.sent[i], e) ==> s.sent[i].scheduledAt < e.at)
    {
      assert s.sent[i] in s.sent;
    }
  }

  lemma AgainCovers(env: Env, tasks: map<TaskId, Task>, e: Entry, now: int, dice: Dice, tr: Trigger)
    requires GoodTasks(tasks) && e.task in tasks && tasks[e.task].enabled
    requires tr in tasks[e.task].triggers && tr.enabled && tr.id == e.trigger && HasNextUntil(env, tr.kind, now)
    ensures HasEntry(Again(env, tasks, e, now, dice), e.task, tr.id)
  {
    hide Next, EntryFor;
    var found := FindTrigger(tasks[e.task].triggers, e.trigger).value;
    assert DistinctTriggers(tasks[e.task]);
    assert found == tr;
    forall at | Next(env, tr.kind, now, dice(e.task, tr.id)) == Some(at)
      ensures Entry(e.task, tr.id, at) in Again(env, tasks, e, now, dice)
    {
      EntryForCounts(env, e.task, tr, now, dice, Entry(e.task, tr.id, at));
    }
    HasEntryFrom(env, Again(env, tasks, e, now, dice), e.task, tr, now, dice);
  }

  lemma TickKeeps(env: Env, s: State, now: int, monotonicSeconds: int, dice: Dice)
    requires Inv(env, s, now)
    ensures Inv(env, AfterTick(env, s, now, monotonicSeconds, dice), now)
  {
    hide FreshAll, Fresh, DistinctTriggers, HasNextUntil;
    var s' := AfterTick(env, s, now, monotonicSeconds, dice);
    if ClockJumped(s.lastWall, now, monotonicSeconds) {
      FreshAllIsBatch(env, s.tasks, now, dice);
      KeepAndAdd(s, s.tasks, multiset{}, s'.live, now);
      assert multiset{} + s'.live == s'.live;
      forall id, tr | id in s'.tasks && s'.tasks[id].enabled && tr in s'.tasks[id].triggers && tr.enabled
          && HasNextUntil(env, tr.kind, now)
        ensures HasEntry(s'.live, id, tr.id)
      {
        FreshCovers(env, s.tasks[id], now, dice, tr);
        var at :| Entry(id, tr.id, at) in Fresh(env, s.tasks[id], now, dice);
        assert Entry(id, tr.id, at) in s'.live;
      }
    }
  }

  lemma RerollKeeps(env: Env, s: State, id: TaskId, trigger: TriggerId, now: int, dice: Dice)
    requires Inv(env, s, now)
    ensures Inv(env, AfterReroll(env, s, id, trigger, now, dice), now)
  {
    hide Next, DistinctTriggers, Agrees, Ordered, Ahead, PastEvents, Covered, CoversTrigger, OnePerTrigger, Batch,
        OfKey, Landed;
    if RerollTarget(s, id, trigger).Ok? {
      var tr := RerollTarget(s, id, trigger).value;
      var next := Next(env, tr.kind, now, dice(id, trigger));
      var s' := AfterReroll(env, s, id, trigger, now, dice);
      var kept, batch := s.live - OfKey(s.live, id, trigger), Landed(id, trigger, next, 1);
      AtMostOneOfKey(s.live, id, trigger);
      assert s'.live == kept + batch;
      OthersStayRegistered(s.live, kept, s.tasks, s.tasks);
      RerollIsBatch(env, s, id, trigger, now, dice);
      KeepAndAdd(s, s.tasks, kept, batch, now);
      forall i, t | i in s.tasks && s.tasks[i].enabled && t in s.tasks[i].triggers
        ensures CoversTrigger(env, s'.live, i, t, now)
      {
        if i == id && t.id == trigger {
          RerollCovers(env, s, id, trigger, now, dice, t);
        } else {
          CoverageOfOthers(env, s.live, s.tasks, s'.live, i, t, now);
        }
      }
      AllCovered(env, s'.live, s.tasks, now);
    }
  }

  lemma RerollIsBatch(env: Env, s: State, id: TaskId, trigger: TriggerId, now: int, dice: Dice)
    requires RerollTarget(s, id, trigger).Ok?
    ensures var tr := RerollTarget(s, id, trigger).value;
            var batch := Landed(id, trigger, Next(env, tr.kind, now, dice(id, trigger)), 1);
            Batch(s.tasks, batch, now) && forall f | f in batch :: f.task == id && f.trigger == trigger
  {
    hide Next, FindTrigger;
    var tr := RerollTarget(s, id, trigger).value;
    if Next(env, tr.kind, now, dice(id, trigger)).Some? { NextIsAfter(env, tr.kind, now, dice(id, trigger)); }
  }

  lemma RerollCovers(env: Env, s: State, id: TaskId, trigger: TriggerId, now: int, dice: Dice, t: Trigger)
    requires GoodTasks(s.tasks) && RerollTarget(s, id, trigger).Ok?
    requires t in s.tasks[id].triggers && t.id == trigger
    ensures var next := Next(env, RerollTarget(s, id, trigger).value.kind, now, dice(id, trigger));
            forall m | m >= Landed(id, trigger, next, 1) :: CoversTrigger(env, m, id, t, now)
  {
    hide Next, FindTrigger;
    var tr := RerollTarget(s, id, trigger).value;
    assert DistinctTriggers(s.tasks[id]);
    assert t == tr;
    var next := Next(env, tr.kind, now, dice(id, trigger));
    forall m | m >= Landed(id, trigger, next, 1) ensures CoversTrigger(env, m, id, t, now) {
      if tr.enabled && HasNextUntil(env, tr.kind, now) {
        assert Entry(id, trigger, next.value) in Landed(id, trigger, next, 1);
      }
    }
  }

  lemma AtMostOneOfKey(m: multiset<Entry>, id: TaskId, trigger: TriggerId)
    requires OnePerTrigger(m)
    ensures |OfKey(m, id, trigger)| <= 1
  {
    hide OfTask, OfTrigger;
    var target := OfKey(m, id, trigger);
    if target != multiset{} {
      var e :| e in target;
      forall f | f in target ensures f == e {
        assert SameTrigger(e, f);
      }
      assert target == multiset{e};
    }
  }
}

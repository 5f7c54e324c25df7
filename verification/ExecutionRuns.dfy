/** Whole runs of the execution protocol, under any interleaving, with tasks deleted meanwhile, crashes and restarts. */
module ExecutionRuns {
  import opened Options
  import opened Triggers
  import opened Rfc3339
  import opened RunStores
  import opened ActionChains
  import opened ExecutionManagers
  import opened ExecutionProtocol

  /** Each step is enabled where it is taken. */
  predicate Possible(s: State, steps: seq<Step>)
    decreases |steps|
  {
    steps == [] || (Enabled(s, steps[0]) && Possible(After(s, steps[0]), steps[1..]))
  }

  function Continue(s: State, steps: seq<Step>): State
    requires Possible(s, steps)
    decreases |steps|
  {
    if steps == [] then s else Continue(After(s, steps[0]), steps[1..])
  }

  lemma {:induction false} ContinueKeeps(s: State, steps: seq<Step>)
    requires Inv(s) && Possible(s, steps)
    ensures Inv(Continue(s, steps)) && Continue(s, steps).maxConcurrent == s.maxConcurrent
    decreases |steps|
  {
    hide Inv, Enabled, After;
    if steps != [] {
      StepKeeps(s, steps[0]);
      MaxIsConstant(s, steps[0]);
      ContinueKeeps(After(s, steps[0]), steps[1..]);
    }
  }

  lemma MaxIsConstant(s: State, step: Step)
    requires Enabled(s, step)
    ensures After(s, step).maxConcurrent == s.maxConcurrent
  {
    hide Ending, FirstRow, Admits, Acquired, Released, Recovered, Purged, WithoutRunsOf, Count;
  }

  /** A run from start-up over tables whose runs all refer to existing tasks. */
  predicate IsRun(maxConcurrent: nat, tasks: set<TaskId>, rows: Rows, steps: seq<Step>) {
    ForeignKeys(tasks, rows) && Possible(Initial(maxConcurrent, tasks, rows), steps)
  }

  function Reached(maxConcurrent: nat, tasks: set<TaskId>, rows: Rows, steps: seq<Step>): State
    requires IsRun(maxConcurrent, tasks, rows, steps)
  {
    Continue(Initial(maxConcurrent, tasks, rows), steps)
  }

  lemma ReachedInv(maxConcurrent: nat, tasks: set<TaskId>, rows: Rows, steps: seq<Step>)
    requires IsRun(maxConcurrent, tasks, rows, steps)
    ensures Inv(Reached(maxConcurrent, tasks, rows, steps))
    ensures Reached(maxConcurrent, tasks, rows, steps).maxConcurrent == maxConcurrent
  {
    hide Inv, Possible, Continue;
    InitialInv(maxConcurrent, tasks, rows);
    ContinueKeeps(Initial(maxConcurrent, tasks, rows), steps);
  }

  lemma {:induction false} ContinueJoin(s: State, a: seq<Step>, b: seq<Step>)
    ensures Possible(s, a + b) <==> Possible(s, a) && Possible(Continue(s, a), b)
    ensures Possible(s, a + b) ==> Continue(s, a + b) == Continue(Continue(s, a), b)
    decreases |a|
  {
    hide Enabled, After;
    if a == [] {
      assert a + b == b;
    } else {
      assert (a + b)[1..] == a[1..] + b;
      if Enabled(s, a[0]) { ContinueJoin(After(s, a[0]), a[1..], b); }
    }
  }

  lemma OneMoreStep(s: State, steps: seq<Step>, step: Step)
    ensures Possible(s, steps + [step]) <==> Possible(s, steps) && Enabled(Continue(s, steps), step)
    ensures Possible(s, steps + [step]) ==> Continue(s, steps + [step]) == After(Continue(s, steps), step)
  {
    hide Enabled, After;
    ContinueJoin(s, steps, [step]);
    if Possible(s, steps) { OnlyStep(Continue(s, steps), step); }
  }

  lemma OnlyStep(s: State, step: Step)
    ensures Possible(s, [step]) <==> Enabled(s, step)
    ensures Enabled(s, step) ==> Continue(s, [step]) == After(s, step)
  {
    hide Enabled, After;
    assert [step][1..] == [];
  }

  lemma NoStep(s: State)
    ensures Possible(s, []) && Continue(s, []) == s
  { }

  // ---------- what leaks ----------

  predicate GivesUp(step: Step) {
    step.Answer? && !step.serialised
  }

  predicate HasRestart(steps: seq<Step>) {
    exists i :: 0 <= i < |steps| && steps[i].Restart?
  }

  /** Some manual trigger gave up over its reply and the agent was not restarted since. */
  predicate Leaks(steps: seq<Step>) {
    exists i :: 0 <= i < |steps| && GivesUp(steps[i]) && !HasRestart(steps[i + 1..])
  }

  lemma RestartOfMore(step: Step, rest: seq<Step>)
    ensures HasRestart([step] + rest) <==> step.Restart? || HasRestart(rest)
  {
    if step.Restart? { assert ([step] + rest)[0].Restart?; }
    if HasRestart(rest) {
      var i :| 0 <= i < |rest| && rest[i].Restart?;
      assert ([step] + rest)[i + 1].Restart?;
    }
  }

  lemma LeaksOfMore(step: Step, rest: seq<Step>)
    ensures Leaks([step] + rest) <==> Leaks(rest) || (GivesUp(step) && !HasRestart(rest))
  {
    hide GivesUp, HasRestart;
    var all := [step] + rest;
    assert all[1..] == rest;
    if Leaks(rest) {
      var i :| 0 <= i < |rest| && GivesUp(rest[i]) && !HasRestart(rest[i + 1..]);
      assert all[i + 1] == rest[i] && all[i + 2..] == rest[i + 1..];
    }
    if Leaks(all) {
      var i :| 0 <= i < |all| && GivesUp(all[i]) && !HasRestart(all[i + 1..]);
      if i > 0 { assert all[i] == rest[i - 1] && all[i + 1..] == rest[i..]; }
    }
    if GivesUp(step) && !HasRestart(rest) { assert all[0] == step; }
  }

  lemma LostByStep(s: State, step: Step)
    requires Enabled(s, step)
    ensures After(s, step).lost == map[] <==> step.Restart? || (s.lost == map[] && !GivesUp(step))
  {
    hide Ending, FirstRow, Admits, Acquired, Released, Recovered, Purged, WithoutRunsOf, Count;
    if GivesUp(step) { assert step.id in After(s, step).lost; }
  }

  lemma {:induction false} LostIffLeaks(s: State, steps: seq<Step>)
    requires Possible(s, steps)
    ensures Continue(s, steps).lost == map[] <==> !Leaks(steps) && (s.lost == map[] || HasRestart(steps))
    decreases |steps|
  {
    hide Enabled, After, HasRestart, Leaks;
    if steps == [] {
      NothingLeaks();
    } else {
      var step, rest := steps[0], steps[1..];
      assert steps == [step] + rest;
      LostByStep(s, step);
      LostIffLeaks(After(s, step), rest);
      RestartOfMore(step, rest);
      LeaksOfMore(step, rest);
    }
  }

  lemma NothingLeaks()
    ensures !Leaks([]) && !HasRestart([])
  { }

  // ---------- permits and slots ----------

  /**
   Whatever the interleaving: permits add up, every count is the number of slots granted
   and not yet released, and the manager's total is their sum. Unless a trigger leaked,
   every slot belongs to a run with a permit, so no more run at once than there are permits.
   */
  lemma PermitsAndSlotsConserved(maxConcurrent: nat, tasks: set<TaskId>, rows: Rows, steps: seq<Step>)
    requires IsRun(maxConcurrent, tasks, rows, steps)
    ensures var s := Reached(maxConcurrent, tasks, rows, steps);
            && s.available + |s.runs| == maxConcurrent
            && NoZeroEntries(s.counts)
            && (forall t :: Count(s.counts, t) == |OwnersOf(s.slots, t)|)
            && Total(s.counts) == |s.slots|
            && s.slots.Keys <= s.runs.Keys + s.lost.Keys
            && Total(s.counts) <= maxConcurrent + |s.lost|
    ensures var s := Reached(maxConcurrent, tasks, rows, steps);
            !Leaks(steps) ==> s.slots.Keys <= s.runs.Keys && Total(s.counts) <= maxConcurrent
  {
    hide Possible, Continue, Leaks;
    ReachedInv(maxConcurrent, tasks, rows, steps);
    SlotsNeedPermits(Reached(maxConcurrent, tasks, rows, steps));
    LostIffLeaks(Initial(maxConcurrent, tasks, rows), steps);
  }

  lemma SlotsNeedPermits(s: State)
    requires Inv(s)
    ensures Total(s.counts) == |s.slots| && s.slots.Keys <= s.runs.Keys + s.lost.Keys
    ensures Total(s.counts) <= s.maxConcurrent + |s.lost|
  {
    hide Tallies, RowFits;
    TotalIsOwners(s.counts, s.slots);
    forall id | id in s.slots ensures id in s.runs.Keys + s.lost.Keys { assert TablesFit(s, id); }
    SubsetSize(s.slots.Keys, s.runs.Keys + s.lost.Keys);
    UnionSize(s.runs.Keys, s.lost.Keys);
  }

  lemma {:induction false} SubsetSize<T>(a: set<T>, b: set<T>)
    requires a <= b
    ensures |a| <= |b|
  {
    assert b == a + (b - a);
  }

  lemma UnionSize<T>(a: set<T>, b: set<T>)
    ensures |a + b| <= |a| + |b|
  {
    assert a + b == a + (b - a);
    SubsetSize(b - a, b);
  }

  /** When nothing is in flight all permits are back, and slots and tokens are free exactly if no trigger leaked. */
  lemma QuiescentIffNoLeak(maxConcurrent: nat, tasks: set<TaskId>, rows: Rows, steps: seq<Step>)
    requires IsRun(maxConcurrent, tasks, rows, steps)
    requires Reached(maxConcurrent, tasks, rows, steps).runs == map[]
    ensures var s := Reached(maxConcurrent, tasks, rows, steps);
            && s.available == maxConcurrent
            && (s.counts == map[] <==> !Leaks(steps))
            && (s.active == {} <==> !Leaks(steps))
  {
    hide Possible, Continue, Tallies, RowFits, Leaks, ForeignKeys;
    assert IsRun(maxConcurrent, tasks, rows, steps);
    ReachedInv(maxConcurrent, tasks, rows, steps);
    LostIffLeaks(Initial(maxConcurrent, tasks, rows), steps);
    var s := Reached(maxConcurrent, tasks, rows, steps);
    TotalIsOwners(s.counts, s.slots);
    forall id ensures id in s.slots <==> id in s.lost { assert TablesFit(s, id); }
    forall id ensures id in s.active <==> id in s.lost { assert TablesFit(s, id); }
    assert s.slots.Keys == s.lost.Keys && s.active == s.lost.Keys;
    EmptyIffTotalZero(s.counts, s.slots);
  }

  lemma EmptyIffTotalZero(counts: Counts, owners: map<ExecutionId, TaskId>)
    requires Tallies(counts, owners)
    ensures counts == map[] <==> owners.Keys == {}
  {
    TotalIsOwners(counts, owners);
    if counts != map[] {
      var t :| t in counts;
      TotalWithout(counts, t);
    }
  }

  lemma ThreeSteps(s: State, a: Step, b: Step, c: Step)
    requires Enabled(s, a) && Enabled(After(s, a), b) && Enabled(After(After(s, a), b), c)
    ensures Possible(s, [a, b, c]) && Continue(s, [a, b, c]) == After(After(After(s, a), b), c)
  {
    hide Enabled, After;
    assert [a, b, c][1..] == [b, c] && [b, c][1..] == [c];
    var s1, s2 := After(s, a), After(After(s, a), b);
    OnlyStep(s2, c);
    assert Possible(s1, [b, c]) && Continue(s1, [b, c]) == Continue(s2, [c]);
  }

  /** One permit, two parallel runs of task 7: the first is manual and has inserted its row. */
  lemma ManualRowInserted(t: Utc)
    ensures var s := Initial(1, {7}, map[]);
            var steps := [Arrive(0, 7, AllowParallel, true), TakeSlot(0), CreateRow(0, t, false)];
            && Possible(s, steps)
            && var r := Continue(s, steps);
               r.available == 0 && r.counts == map[7 := 1] && r.slots == map[0 := 7] && r.used == {0} && r.tasks == {7}
               && r.runs == map[0 := InFlight(7, AllowParallel, true, HasRow)]
  {
    hide FirstRow;
    ThreeSteps(Initial(1, {7}, map[]), Arrive(0, 7, AllowParallel, true), TakeSlot(0), CreateRow(0, t, false));
  }

  lemma GivesUpAndGoesOn(s: State)
    requires s.available == 0 && s.counts == map[7 := 1] && s.slots == map[0 := 7] && s.used == {0} && s.tasks == {7}
    requires s.runs == map[0 := InFlight(7, AllowParallel, true, HasRow)]
    ensures var steps := [Answer(0, false), Arrive(1, 7, AllowParallel, false), TakeSlot(1)];
            Possible(s, steps) && Continue(s, steps).slots == map[0 := 7, 1 := 7]
  {
    ThreeSteps(s, Answer(0, false), Arrive(1, 7, AllowParallel, false), TakeSlot(1));
  }

  /** A leak in numbers: with one permit, a trigger that gives up and a second run make two. */
  lemma LeakExceedsPermits(t: Utc)
    ensures var steps := [Arrive(0, 7, AllowParallel, true), TakeSlot(0), CreateRow(0, t, false)]
                         + [Answer(0, false), Arrive(1, 7, AllowParallel, false), TakeSlot(1)];
            && IsRun(1, {7}, map[], steps) && Leaks(steps)
            && Total(Reached(1, {7}, map[], steps).counts) == 2
  {
    hide Possible, Continue, Text, Initial, Total;
    var start := Initial(1, {7}, map[]);
    var first := [Arrive(0, 7, AllowParallel, true), TakeSlot(0), CreateRow(0, t, false)];
    var second := [Answer(0, false), Arrive(1, 7, AllowParallel, false), TakeSlot(1)];
    ManualRowInserted(t);
    GivesUpAndGoesOn(Continue(start, first));
    ContinueJoin(start, first, second);
    var steps := first + second;
    assert GivesUp(steps[3]) && !HasRestart(steps[4..]);
    assert IsRun(1, {7}, map[], steps);
    var s := Reached(1, {7}, map[], steps);
    assert s.slots.Keys == {0, 1};
    PermitsAndSlotsConserved(1, {7}, map[], steps);
  }

  /** The most runs of one task a policy admits at once. */
  function Limit(policy: ConcurrencyPolicy): Option<nat> {
    match policy
    case AllowParallel => None
    case SkipIfRunning => Some(1)
    case QueueOne => Some(2)
  }

  predicate ObeysPolicy(step: Step, task: TaskId, policy: ConcurrencyPolicy) {
    step.Arrive? && step.task == task ==> step.policy == policy
  }

  ghost predicate WithinLimit(s: State, task: TaskId, policy: ConcurrencyPolicy, limit: nat) {
    && Count(s.counts, task) <= limit
    && forall id | id in s.runs && s.runs[id].task == task :: s.runs[id].policy == policy
  }

  /** If every arrival of a task carries the same limiting policy, its count never exceeds that limit. */
  lemma {:induction false} PolicyLimitHolds(s: State, steps: seq<Step>, task: TaskId, policy: ConcurrencyPolicy,
      limit: nat)
    requires Possible(s, steps) && Limit(policy) == Some(limit) && WithinLimit(s, task, policy, limit)
    requires forall i | 0 <= i < |steps| :: ObeysPolicy(steps[i], task, policy)
    ensures Count(Continue(s, steps).counts, task) <= limit
    decreases |steps|
  {
    hide Enabled, Limit, After, WithinLimit, Count;
    if steps != [] {
      StepStaysWithinLimit(s, steps[0], task, policy, limit);
      PolicyLimitHolds(After(s, steps[0]), steps[1..], task, policy, limit);
    } else {
      LimitBoundsCount(s, task, policy, limit);
    }
  }

  lemma LimitBoundsCount(s: State, task: TaskId, policy: ConcurrencyPolicy, limit: nat)
    requires WithinLimit(s, task, policy, limit)
    ensures Count(s.counts, task) <= limit
  { }

  lemma StepStaysWithinLimit(s: State, step: Step, task: TaskId, policy: ConcurrencyPolicy, limit: nat)
    requires Enabled(s, step) && Limit(policy) == Some(limit)
    requires WithinLimit(s, task, policy, limit) && ObeysPolicy(step, task, policy)
    ensures WithinLimit(After(s, step), task, policy, limit)
  {
    hide WithinLimit, Limit, After;
    match step {
      case TakeSlot(id) => TakeSlotWithinLimit(s, id, task, policy, limit); AfterTakeSlotIs(s, id);
      case _ => OtherStepWithinLimit(s, step, task, policy, limit);
    }
  }

  lemma AfterTakeSlotIs(s: State, id: ExecutionId)
    requires Enabled(s, TakeSlot(id))
    ensures After(s, TakeSlot(id)) == AfterTakeSlot(s, id)
  { }

  lemma OtherStepWithinLimit(s: State, step: Step, task: TaskId, policy: ConcurrencyPolicy, limit: nat)
    requires Enabled(s, step) && !step.TakeSlot?
    requires WithinLimit(s, task, policy, limit) && ObeysPolicy(step, task, policy)
    ensures WithinLimit(After(s, step), task, policy, limit)
  {
    hide Ending, FirstRow, Purged, Count, Released, Recovered;
    StepReleasesAtMost(s, step, task);
  }

  lemma TakeSlotWithinLimit(s: State, id: ExecutionId, task: TaskId, policy: ConcurrencyPolicy, limit: nat)
    requires id in s.runs && Limit(policy) == Some(limit) && WithinLimit(s, task, policy, limit)
    ensures WithinLimit(AfterTakeSlot(s, id), task, policy, limit)
  { }

  lemma StepReleasesAtMost(s: State, step: Step, task: TaskId)
    requires Enabled(s, step) && !step.TakeSlot?
    ensures Count(After(s, step).counts, task) <= Count(s.counts, task)
  {
    hide Ending, FirstRow, Purged, Recovered;
  }

  // ---------- entering, slots and insertion ----------

  /** A run enters exactly if its task exists and fewer runs are in flight than there are permits. */
  lemma EntersIffRoom(maxConcurrent: nat, tasks: set<TaskId>, rows: Rows, steps: seq<Step>, arrive: Step)
    requires IsRun(maxConcurrent, tasks, rows, steps) && arrive.Arrive?
    requires Enabled(Reached(maxConcurrent, tasks, rows, steps), arrive)
    ensures var s := Reached(maxConcurrent, tasks, rows, steps);
            var s' := After(s, arrive);
            if arrive.task in s.tasks && |s.runs| < maxConcurrent
            then s'.runs == s.runs[arrive.id := InFlight(arrive.task, arrive.policy, arrive.manual, HasPermit)]
                 && s'.available + 1 == s.available && s'.slots == s.slots && s'.rows == s.rows
            else s' == s
  {
    hide Possible, Continue, Tallies, TablesFit, ForeignKeys;
    ReachedInv(maxConcurrent, tasks, rows, steps);
  }

  /** Whether one more run of a task may hold a slot while `held` do. */
  predicate MayHold(policy: ConcurrencyPolicy, held: nat) {
    policy == AllowParallel || (policy == SkipIfRunning && held < 1) || (policy == QueueOne && held < 2)
  }

  /**
   A run that asks for its slot gets it exactly if its policy is AllowParallel, or fewer than
   one (SkipIfRunning) or two (QueueOne) slots of its task are held; otherwise it is gone and
   its permit is back.
   */
  lemma SlotGrantedIffUnderLimit(maxConcurrent: nat, tasks: set<TaskId>, rows: Rows, steps: seq<Step>, id: ExecutionId)
    requires IsRun(maxConcurrent, tasks, rows, steps)
    requires Enabled(Reached(maxConcurrent, tasks, rows, steps), TakeSlot(id))
    ensures var s := Reached(maxConcurrent, tasks, rows, steps);
            var s', run := After(s, TakeSlot(id)), s.runs[id];
            if MayHold(run.policy, |OwnersOf(s.slots, run.task)|)
            then InPhase(s', id, HasSlot) && s'.slots == s.slots[id := run.task] && s'.available == s.available
            else id !in s'.runs && s'.slots == s.slots && s'.counts == s.counts && s'.available == s.available + 1
  {
    hide Possible, Continue, TablesFit, ForeignKeys, OwnersOf;
    ReachedInv(maxConcurrent, tasks, rows, steps);
    var s := Reached(maxConcurrent, tasks, rows, steps);
    assert Count(s.counts, s.runs[id].task) == |OwnersOf(s.slots, s.runs[id].task)|;
  }

  /** A run inserts its row exactly if the database works and its task still exists; otherwise its slot is back. */
  lemma RowInsertedIffTaskExists(maxConcurrent: nat, tasks: set<TaskId>, rows: Rows, steps: seq<Step>, create: Step)
    requires IsRun(maxConcurrent, tasks, rows, steps) && create.CreateRow?
    requires Enabled(Reached(maxConcurrent, tasks, rows, steps), create)
    ensures var s := Reached(maxConcurrent, tasks, rows, steps);
            var s', id, run := After(s, create), create.id, s.runs[create.id];
            if !create.databaseFails && run.task in s.tasks
            then id in s'.rows && id in s'.active && s'.slots == s.slots
                 && InPhase(s', id, if run.manual then HasRow else Acting)
            else s'.rows == s.rows && s'.active == s.active && s'.slots == s.slots - {id} && InPhase(s', id, NoSlot)
  {
    hide Possible, Continue, Tallies, ForeignKeys, FirstRow, Released;
    ReachedInv(maxConcurrent, tasks, rows, steps);
    assert TablesFit(Reached(maxConcurrent, tasks, rows, steps), create.id);
  }

  /** The steps of a run from its slot to its end, one after the other. */
  function Course(id: ExecutionId, manual: bool, startedAt: Utc, actions: seq<Action>, finishedAt: Utc): seq<Step> {
    [CreateRow(id, startedAt, false)] + (if manual then [Answer(id, true)] else [])
    + [Finish(id, actions, finishedAt, false)] + [Release(id), Leave(id)]
  }

  lemma CourseToActing(s: State, id: ExecutionId, startedAt: Utc)
    requires Inv(s) && InPhase(s, id, HasSlot) && s.runs[id].task in s.tasks
    ensures var steps := [CreateRow(id, startedAt, false)] + (if s.runs[id].manual then [Answer(id, true)] else []);
            && Possible(s, steps)
            && var r := Continue(s, steps);
               InPhase(r, id, Acting) && r.runs.Keys == s.runs.Keys && r.runs[id].task == s.runs[id].task
               && r.slots == s.slots && r.active == s.active + {id} && r.available == s.available
               && r.counts == s.counts && r.tasks == s.tasks
               && forall other | other in s.runs && other != id :: r.runs[other] == s.runs[other]
  {
    hide FirstRow, Possible, Continue, Tallies, ForeignKeys;
    assert TablesFit(s, id);
    var create := CreateRow(id, startedAt, false);
    OnlyStep(s, create);
    if s.runs[id].manual {
      OneMoreStep(s, [create], Answer(id, true));
    } else {
      assert [create] + [] == [create];
    }
  }

  lemma CourseFromActing(s: State, id: ExecutionId, actions: seq<Action>, finishedAt: Utc)
    requires InPhase(s, id, Acting)
    ensures var steps := [Finish(id, actions, finishedAt, false), Release(id), Leave(id)];
            && Possible(s, steps)
            && var r := Continue(s, steps);
               r.runs == s.runs - {id} && r.slots == s.slots - {id} && r.active == s.active - {id}
               && r.available == s.available + 1 && r.counts == Released(s.counts, s.runs[id].task)
  {
    hide Ending, Released;
    ThreeSteps(s, Finish(id, actions, finishedAt, false), Release(id), Leave(id));
  }

  /**
   Left to itself a run with a slot goes on to its actions, on the manual path after its
   reply, and in the end gives back slot, cancellation entry and permit, and nothing else.
   */
  lemma UndisturbedRunGivesAllBack(maxConcurrent: nat, tasks: set<TaskId>, rows: Rows, before: seq<Step>,
                                   id: ExecutionId, startedAt: Utc, actions: seq<Action>, finishedAt: Utc)
    requires IsRun(maxConcurrent, tasks, rows, before)
    requires var s := Reached(maxConcurrent, tasks, rows, before);
             InPhase(s, id, HasSlot) && s.runs[id].task in s.tasks
    ensures var s := Reached(maxConcurrent, tasks, rows, before);
            var course := Course(id, s.runs[id].manual, startedAt, actions, finishedAt);
            && Possible(s, course)
            && var r := Continue(s, course);
               r.runs == s.runs - {id} && r.slots == s.slots - {id} && r.active == s.active
               && r.available == s.available + 1
  {
    hide Possible, Continue, Inv;
    ReachedInv(maxConcurrent, tasks, rows, before);
    var s := Reached(maxConcurrent, tasks, rows, before);
    var early := [CreateRow(id, startedAt, false)] + (if s.runs[id].manual then [Answer(id, true)] else []);
    var late := [Finish(id, actions, finishedAt, false), Release(id), Leave(id)];
    CourseToActing(s, id, startedAt);
    CourseFromActing(Continue(s, early), id, actions, finishedAt);
    ContinueJoin(s, early, late);
    assert Course(id, s.runs[id].manual, startedAt, actions, finishedAt) == early + late;
    NotActiveYet(s, id);
  }

  lemma NotActiveYet(s: State, id: ExecutionId)
    requires Inv(s) && InPhase(s, id, HasSlot)
    ensures id !in s.active
  {
    assert TablesFit(s, id);
  }

  /** The last of the steps that names the task saved it. */
  predicate SavedLast(steps: seq<Step>, task: TaskId) {
    exists i :: 0 <= i < |steps| && steps[i] == SaveTask(task) && !Deletes(steps[i + 1..], task)
  }

  lemma SavedLastOfMore(step: Step, rest: seq<Step>, task: TaskId)
    ensures SavedLast([step] + rest, task) <==>
              SavedLast(rest, task) || (step == SaveTask(task) && !Deletes(rest, task))
    ensures Deletes([step] + rest, task) <==> step == DeleteTask(task) || Deletes(rest, task)
  {
    var all := [step] + rest;
    assert all[0] == step && all[1..] == rest;
    if SavedLast(rest, task) {
      var i :| 0 <= i < |rest| && rest[i] == SaveTask(task) && !Deletes(rest[i + 1..], task);
      assert all[i + 1] == rest[i] && all[i + 2..] == rest[i + 1..];
    }
    if SavedLast(all, task) {
      var i :| 0 <= i < |all| && all[i] == SaveTask(task) && !Deletes(all[i + 1..], task);
      if i > 0 { assert rest[i - 1] == all[i] && rest[i..] == all[i + 1..]; }
    }
  }

  lemma TaskByStep(s: State, step: Step, task: TaskId)
    requires Enabled(s, step)
    ensures task in After(s, step).tasks <==> step == SaveTask(task) || (task in s.tasks && step != DeleteTask(task))
  {
    hide Ending, FirstRow, Admits, Acquired, Released, Recovered, Purged, WithoutRunsOf, Count;
  }

  /** A task exists exactly if it was saved and not deleted since, or was there at first and never deleted. */
  lemma {:induction false} TaskExistsIffSaved(s: State, steps: seq<Step>, task: TaskId)
    requires Possible(s, steps)
    ensures task in Continue(s, steps).tasks <==> SavedLast(steps, task) || (task in s.tasks && !Deletes(steps, task))
    decreases |steps|
  {
    hide Enabled, After, SavedLast, Deletes;
    if steps == [] {
      NothingSaved(task);
    } else {
      var step, rest := steps[0], steps[1..];
      assert steps == [step] + rest;
      TaskByStep(s, step, task);
      TaskExistsIffSaved(After(s, step), rest, task);
      SavedLastOfMore(step, rest, task);
    }
  }

  lemma NothingSaved(task: TaskId)
    ensures !SavedLast([], task) && !Deletes([], task)
  { }

  // ---------- rows ----------

  predicate IsFinal(status: Status) {
    status == Succeeded || status == Failed || status == TimedOut || status == Cancelled
  }

  /**
   A row appears Running, when it is inserted. While it is Running its end or a restart
   changes it, and deleting its task is all that takes it away. After that it only ever
   disappears.
   */
  predicate RowMoves(r: Rows, step: Step, r': Rows, id: ExecutionId) {
    if id !in r then
      id in r' ==>
        && step.CreateRow? && step.id == id
        && r'[id] == Row(r'[id].task, Running, Text(step.startedAt), None, None, None)
    else if r[id].status == Running then
      && (id !in r' <==> step == DeleteTask(r[id].task))
      && (id in r' ==>
            && r'[id].task == r[id].task && r'[id].startedAt == r[id].startedAt
            && (r'[id] == r[id]
                || (step.Finish? && step.id == id && IsFinal(r'[id].status))
                || (step.Restart? && r'[id].status == Interrupted)))
    else
      && (id in r' ==> r'[id] == r[id])
      && (id !in r' ==> step == DeleteTask(r[id].task) || (step.Purge? && step.purged == r[id].task))
  }

  lemma EndIsFinal(actions: seq<Action>)
    ensures IsFinal(EndOf(actions).status)
    ensures EndOf(actions).status == Succeeded <==> forall a | a in actions :: Passes(a)
  {
    var n := PassedPrefix(actions);
    if n < |actions| { assert actions[n] in actions; }
  }

  lemma StepMovesRow(s: State, step: Step, id: ExecutionId)
    requires Inv(s) && Enabled(s, step)
    ensures RowMoves(s.rows, step, After(s, step).rows, id)
  {
    hide SameAt, RowMoves, After, Inv, Enabled;
    if IsOutside(step) {
      OutsideMovesRow(s, step, id);
    } else if step.id == id {
      OwnStepMovesRow(s, step);
    } else {
      SameElsewhere(s, step, id);
      SameMovesRow(s, step, After(s, step), id);
    }
  }

  lemma SameElsewhere(s: State, step: Step, other: ExecutionId)
    requires Enabled(s, step) && !IsOutside(step) && other != step.id
    ensures SameAt(s, After(s, step), other)
  {
    hide SameAt, After, Enabled;
    if IsEarly(step) { EarlyElsewhere(s, step, other); } else { LateElsewhere(s, step, other); }
  }

  lemma SameMovesRow(s: State, step: Step, s': State, id: ExecutionId)
    requires SameAt(s, s', id) && !IsOutside(step)
    ensures RowMoves(s.rows, step, s'.rows, id)
  { }

  lemma OutsideMovesRow(s: State, step: Step, id: ExecutionId)
    requires Enabled(s, step) && IsOutside(step)
    ensures RowMoves(s.rows, step, After(s, step).rows, id)
  {
    hide Text, TextLess;
  }

  lemma OwnStepMovesRow(s: State, step: Step)
    requires Inv(s) && Enabled(s, step) && !IsOutside(step)
    ensures RowMoves(s.rows, step, After(s, step).rows, step.id)
  {
    hide EndOf, Admits, Acquired, Released, Tallies, Count, Text;
    assert TablesFit(s, step.id);
    if step.Finish? { EndIsFinal(step.actions); }
  }

  /** In every run each step moves each row so. */
  lemma StepMovesRows(maxConcurrent: nat, tasks: set<TaskId>, rows: Rows, steps: seq<Step>, step: Step, id: ExecutionId)
    requires IsRun(maxConcurrent, tasks, rows, steps) && Enabled(Reached(maxConcurrent, tasks, rows, steps), step)
    ensures var s := Reached(maxConcurrent, tasks, rows, steps);
            RowMoves(s.rows, step, After(s, step).rows, id)
  {
    hide Possible, Continue, RowMoves, Inv, Enabled, After;
    ReachedInv(maxConcurrent, tasks, rows, steps);
    StepMovesRow(Reached(maxConcurrent, tasks, rows, steps), step, id);
  }

  /** The run of this id is past the point where a row is inserted. */
  predicate Settled(s: State, id: ExecutionId) {
    && id in s.used
    && (id in s.runs ==> !s.runs[id].phase.HasPermit? && !s.runs[id].phase.HasSlot?)
  }

  lemma StepKeepsSettled(s: State, step: Step, id: ExecutionId)
    requires Enabled(s, step) && Settled(s, id)
    ensures Settled(After(s, step), id)
    ensures id !in s.rows ==> id !in After(s, step).rows
  {
    hide Ending, FirstRow, Admits, Acquired, Released, Count, Text, Expired;
    if !IsOutside(step) && step.id != id { SameElsewhere(s, step, id); }
  }

  lemma RowMeansSettled(s: State, id: ExecutionId)
    requires Inv(s) && id in s.rows
    ensures Settled(s, id)
  {
    assert TablesFit(s, id);
  }

  /** Once a row is finished, any continuation, restarts included, leaves it as it is or deletes it for good. */
  lemma {:induction false} FinishedIsFinal(s: State, steps: seq<Step>, id: ExecutionId)
    requires Inv(s) && Possible(s, steps)
    requires id in s.rows && s.rows[id].status != Running
    ensures id in Continue(s, steps).rows ==> Continue(s, steps).rows[id] == s.rows[id]
    decreases |steps|
  {
    hide Inv, Enabled, After, Settled;
    if steps != [] {
      StepMovesRow(s, steps[0], id);
      StepKeeps(s, steps[0]);
      if id in After(s, steps[0]).rows {
        FinishedIsFinal(After(s, steps[0]), steps[1..], id);
      } else {
        RowMeansSettled(s, id);
        StepKeepsSettled(s, steps[0], id);
        DeletedStaysDeleted(After(s, steps[0]), steps[1..], id);
      }
    }
  }

  lemma {:induction false} DeletedStaysDeleted(s: State, steps: seq<Step>, id: ExecutionId)
    requires Possible(s, steps) && Settled(s, id) && id !in s.rows
    ensures id !in Continue(s, steps).rows
    decreases |steps|
  {
    hide Enabled, After, Settled;
    if steps != [] {
      StepKeepsSettled(s, steps[0], id);
      DeletedStaysDeleted(After(s, steps[0]), steps[1..], id);
    }
  }

  /**
   A crash at any point of a run, then start-up: the agent is as after a first start over
   the tables it left. No row is Running, and exactly those that were are Interrupted.
   */
  lemma RestartRecovers(maxConcurrent: nat, tasks: set<TaskId>, rows: Rows, steps: seq<Step>)
    requires IsRun(maxConcurrent, tasks, rows, steps)
    ensures IsRun(maxConcurrent, tasks, rows, steps + [Restart])
    ensures var s := Reached(maxConcurrent, tasks, rows, steps);
            var r := Reached(maxConcurrent, tasks, rows, steps + [Restart]);
            && r == Initial(maxConcurrent, s.tasks, s.rows).(used := s.used) && ForeignKeys(s.tasks, s.rows)
            && r.rows.Keys == s.rows.Keys
            && (forall id | id in r.rows :: r.rows[id].status != Running)
            && (forall id | id in r.rows :: r.rows[id] != s.rows[id] <==> s.rows[id].status == Running)
            && (forall id | id in r.rows && r.rows[id] != s.rows[id] ::
                  r.rows[id] == s.rows[id].(status := Interrupted,
                                            errorMessage := Some("Agent restarted unexpectedly")))
  {
    hide Possible, Continue, Tallies, TablesFit;
    ReachedInv(maxConcurrent, tasks, rows, steps);
    OneMoreStep(Initial(maxConcurrent, tasks, rows), steps, Restart);
  }

  /**
   A purge in any run takes exactly the finished rows of its task whose runs started before
   the cutoff, and changes nothing else.
   */
  lemma PurgeTakesTheExpired(maxConcurrent: nat, tasks: set<TaskId>, rows: Rows, steps: seq<Step>, purge: Step,
                             started: map<ExecutionId, Utc>)
    requires IsRun(maxConcurrent, tasks, rows, steps) && purge.Purge?
    requires StampedBy(Reached(maxConcurrent, tasks, rows, steps).rows, started)
    ensures var s := Reached(maxConcurrent, tasks, rows, steps);
            var s' := After(s, purge);
            && (forall id | id in s'.rows :: id in s.rows && s'.rows[id] == s.rows[id])
            && (forall id | id in s.rows ::
                  id !in s'.rows <==> s.rows[id].task == purge.purged && s.rows[id].status != Running
                                      && Instant(started[id]) < Instant(purge.before))
            && s' == s.(rows := s'.rows)
  {
    hide Possible, Continue, Text, Instant, TextLess, Purged;
    var s := Reached(maxConcurrent, tasks, rows, steps);
    forall id | id in s.rows
      ensures id in Purged(s.rows, purge.purged, Text(purge.before)) <==>
                !(s.rows[id].task == purge.purged && s.rows[id].status != Running
                  && Instant(started[id]) < Instant(purge.before))
    {
      PurgeIsExact(s.rows, started, purge.purged, purge.before, id);
    }
    forall id | id in Purged(s.rows, purge.purged, Text(purge.before))
      ensures id in s.rows && Purged(s.rows, purge.purged, Text(purge.before))[id] == s.rows[id]
    {
      RunningIsNotPurged(s.rows, purge.purged, Text(purge.before), id);
    }
  }

  // ---------- one run's row from insertion to end ----------

  predicate Deletes(steps: seq<Step>, task: TaskId) {
    DeleteTask(task) in steps
  }

  /** The run has inserted its row and not ended yet. */
  predicate IsUnderWay(s: State, id: ExecutionId) {
    id in s.runs && (s.runs[id].phase.HasRow? || s.runs[id].phase.Acting?)
  }

  /** The run never came to act, or has ended. */
  predicate IsOver(s: State, id: ExecutionId) {
    id in s.used && (id in s.runs ==> s.runs[id].phase.Ended? || s.runs[id].phase.NoSlot?)
  }

  lemma StepKeepsOver(s: State, step: Step, id: ExecutionId)
    requires Enabled(s, step) && IsOver(s, id)
    ensures IsOver(After(s, step), id)
  {
    hide Ending, FirstRow, Admits, Acquired, Released, Count, Text, Expired;
  }

  lemma {:induction false} OverStaysOver(s: State, steps: seq<Step>, id: ExecutionId)
    requires Possible(s, steps) && IsOver(s, id)
    ensures IsOver(Continue(s, steps), id)
    decreases |steps|
  {
    hide Enabled, After, IsOver;
    if steps != [] {
      StepKeepsOver(s, steps[0], id);
      OverStaysOver(After(s, steps[0]), steps[1..], id);
    }
  }

  /** While a run is under way its row stays as inserted, unless its task is deleted. */
  ghost predicate RowKept(s: State, step: Step, s': State, id: ExecutionId)
    requires id in s.runs
  {
    && IsUnderWay(s', id) && s'.runs[id].task == s.runs[id].task
    && (id in s'.rows <==> id in s.rows && step != DeleteTask(s.runs[id].task))
    && (id in s'.rows ==> s'.rows[id] == s.rows[id])
  }

  lemma StepKeepsRow(s: State, step: Step, id: ExecutionId)
    requires Inv(s) && Enabled(s, step) && IsUnderWay(s, id)
    ensures IsOver(After(s, step), id) || RowKept(s, step, After(s, step), id)
  {
    hide SameAt, RowKept, After, Enabled, IsOver;
    assert TablesFit(s, id);
    if IsOutside(step) {
      OutsideKeepsRow(s, step, id);
    } else if step.id == id {
      OwnStepKeepsRow(s, step);
    } else {
      SameElsewhere(s, step, id);
      SameKeepsRow(s, step, After(s, step), id);
    }
  }

  lemma SameKeepsRow(s: State, step: Step, s': State, id: ExecutionId)
    requires SameAt(s, s', id) && !IsOutside(step) && IsUnderWay(s, id)
    ensures RowKept(s, step, s', id)
  { }

  lemma OutsideKeepsRow(s: State, step: Step, id: ExecutionId)
    requires Enabled(s, step) && IsOutside(step) && IsUnderWay(s, id) && TablesFit(s, id)
    ensures IsOver(After(s, step), id) || RowKept(s, step, After(s, step), id)
  {
    hide Text, TextLess;
  }

  lemma OwnStepKeepsRow(s: State, step: Step)
    requires Enabled(s, step) && !IsOutside(step) && IsUnderWay(s, step.id) && TablesFit(s, step.id)
    ensures IsOver(After(s, step), step.id) || RowKept(s, step, After(s, step), step.id)
  {
    hide Ending, Released, Count;
  }

  lemma {:induction false} RowStaysUntilDeleted(s: State, steps: seq<Step>, id: ExecutionId)
    requires Inv(s) && Possible(s, steps) && IsUnderWay(s, id) && IsUnderWay(Continue(s, steps), id)
    ensures var r := Continue(s, steps);
            && r.runs[id].task == s.runs[id].task
            && (id in r.rows <==> id in s.rows && !Deletes(steps, s.runs[id].task))
            && (id in r.rows ==> r.rows[id] == s.rows[id])
    decreases |steps|
  {
    hide Inv, Enabled, After;
    if steps != [] {
      var s' := After(s, steps[0]);
      StepKeeps(s, steps[0]);
      StepKeepsRow(s, steps[0], id);
      if IsOver(s', id) {
        OverStaysOver(s', steps[1..], id);
        assert false;
      } else {
        RowStaysUntilDeleted(s', steps[1..], id);
        assert steps == [steps[0]] + steps[1..];
      }
    }
  }

  lemma CreatedRow(s: State, create: Step)
    requires Inv(s) && create.CreateRow? && Enabled(s, create)
    ensures var r := After(s, create);
            IsOver(r, create.id)
            || (IsUnderWay(r, create.id) && r.runs[create.id].task == s.runs[create.id].task
                && create.id in r.rows
                && r.rows[create.id] == FirstRow(create.id, s.runs[create.id].task, create.startedAt))
  {
    hide FirstRow, Released, Tallies;
    assert TablesFit(s, create.id);
  }

  /**
   From the insertion of a run's row to its end: the row is there in the end exactly if the
   task was not deleted in between, it carries a final status exactly if besides the update
   did not fail, and that status is Succeeded exactly if every enabled action exited with 0.
   */
  lemma FinalStatusIffTaskKept(s: State, create: Step, between: seq<Step>, finish: Step)
    requires Inv(s) && create.CreateRow? && finish.Finish? && create.id == finish.id
    requires Enabled(s, create) && Possible(After(s, create), between)
    requires Enabled(Continue(After(s, create), between), finish)
    ensures var id, task := create.id, s.runs[create.id].task;
            var r := After(Continue(After(s, create), between), finish).rows;
            var kept := !Deletes(between, task);
            && Continue(After(s, create), between).runs[id].task == task
            && (id in r <==> kept)
            && (id in r ==> r[id].task == task && r[id].startedAt == Text(create.startedAt))
            && (id in r && IsFinal(r[id].status) <==> kept && !finish.databaseFails)
            && (id in r && r[id].status == Succeeded <==>
                  kept && !finish.databaseFails && AllSucceed(finish.actions))
            && (id in r && IsFinal(r[id].status) ==> IsRecorded(r[id], finish))
            && (id in r && !IsFinal(r[id].status) ==>
                  r[id] == Row(task, Running, Text(create.startedAt), None, None, None))
  {
    hide Inv, Possible, Continue, IsOver, Deletes, Text, EndOf, Records, AllSucceed;
    var id := create.id;
    var s1 := After(s, create);
    var s2 := Continue(s1, between);
    StepKeeps(s, create);
    CreatedRow(s, create);
    FinishIsNotOver(s2, finish);
    if IsOver(s1, id) {
      OverStaysOver(s1, between, id);
      assert false;
    } else {
      RowStaysUntilDeleted(s1, between, id);
      EndIsFinal(finish.actions);
      EndRecords(finish.actions);
      SuccessMeansAll(finish.actions);
    }
  }

  /** Status, exit code, error and end time are those of the chain of actions and the end. */
  ghost predicate IsRecorded(row: Row, finish: Step)
    requires finish.Finish?
  {
    && Records(finish.actions, RunResult(row.status, row.exitCode, row.errorMessage))
    && row.finishedAt == Some(Text(finish.finishedAt))
  }

  lemma SuccessMeansAll(actions: seq<Action>)
    ensures EndOf(actions).status == Succeeded <==> AllSucceed(actions)
  {
    hide EndOf;
    EndIsFinal(actions);
    assert forall i | 0 <= i < |actions| :: actions[i] in actions;
  }

  lemma FinishIsNotOver(s: State, finish: Step)
    requires finish.Finish? && Enabled(s, finish)
    ensures IsUnderWay(s, finish.id) && !IsOver(s, finish.id)
  { }

  /** The step before which a run was not under way inserted its row. */
  lemma EntersByCreateRow(s: State, step: Step, id: ExecutionId)
    requires Enabled(s, step) && !IsUnderWay(s, id) && IsUnderWay(After(s, step), id)
    ensures step.CreateRow? && step.id == id && !step.databaseFails
  {
    hide Ending, FirstRow, Admits, Acquired, Released, Count, Text, Expired, Recovered;
  }

  /** Every run under way, so every one that ends, has inserted its row before. */
  lemma {:induction false} UnderWayWasCreated(maxConcurrent: nat, tasks: set<TaskId>, rows: Rows, steps: seq<Step>,
                                              id: ExecutionId) returns (i: nat)
    requires IsRun(maxConcurrent, tasks, rows, steps) && IsUnderWay(Reached(maxConcurrent, tasks, rows, steps), id)
    ensures i < |steps| && steps[i].CreateRow? && steps[i].id == id && !steps[i].databaseFails
    decreases |steps|
  {
    hide Possible, Continue, Enabled, After;
    var start := Initial(maxConcurrent, tasks, rows);
    NoStep(start);
    if steps != [] {
      var n := |steps| - 1;
      assert steps == steps[..n] + [steps[n]];
      OneMoreStep(start, steps[..n], steps[n]);
      if IsUnderWay(Continue(start, steps[..n]), id) {
        i := UnderWayWasCreated(maxConcurrent, tasks, rows, steps[..n], id);
      } else {
        EntersByCreateRow(Continue(start, steps[..n]), steps[n], id);
        i := n;
      }
    }
  }

  /** So it is for every run that ends: the step that inserted its row tells what the end leaves of it. */
  lemma FinalStatusInRuns(maxConcurrent: nat, tasks: set<TaskId>, rows: Rows, steps: seq<Step>, finish: Step)
    returns (i: nat)
    requires IsRun(maxConcurrent, tasks, rows, steps) && finish.Finish?
    requires Enabled(Reached(maxConcurrent, tasks, rows, steps), finish)
    ensures i < |steps| && steps[i].CreateRow? && steps[i].id == finish.id && !steps[i].databaseFails
    ensures var s := Reached(maxConcurrent, tasks, rows, steps);
            var id, r := finish.id, After(s, finish).rows;
            var kept := !Deletes(steps[i + 1..], s.runs[id].task);
            && (id in r <==> kept)
            && (id in r && IsFinal(r[id].status) <==> kept && !finish.databaseFails)
            && (id in r && r[id].status == Succeeded <==>
                  kept && !finish.databaseFails && AllSucceed(finish.actions))
            && (id in r && IsFinal(r[id].status) ==> IsRecorded(r[id], finish))
            && (id in r && !IsFinal(r[id].status) ==> r[id].status == Running)
  {
    hide Possible, Continue, After, Inv, Deletes, IsRecorded, AllSucceed;
    FinishIsNotOver(Reached(maxConcurrent, tasks, rows, steps), finish);
    i := UnderWayWasCreated(maxConcurrent, tasks, rows, steps, finish.id);
    var start := Initial(maxConcurrent, tasks, rows);
    var before, between := steps[..i], steps[i + 1..];
    assert steps == before + [steps[i]] + between;
    ContinueJoin(start, before + [steps[i]], between);
    OneMoreStep(start, before, steps[i]);
    ReachedInv(maxConcurrent, tasks, rows, before);
    FinalStatusIffTaskKept(Continue(start, before), steps[i], between, finish);
  }

  // ---------- start times ----------

  ghost predicate Stamped(rows: Rows) {
    exists started :: StampedBy(rows, started)
  }

  /** A row a step leaves has the start time it had, or was inserted with the text of one. */
  lemma StepStampsRow(s: State, step: Step, id: ExecutionId)
    requires Enabled(s, step) && id in After(s, step).rows
    ensures if id in s.rows then After(s, step).rows[id].startedAt == s.rows[id].startedAt
            else step.CreateRow? && step.id == id && After(s, step).rows[id].startedAt == Text(step.startedAt)
  {
    hide EndOf, Admits, Acquired, Released, Count, Text, Expired;
  }

  lemma StepKeepsStamps(s: State, step: Step)
    requires Enabled(s, step) && Stamped(s.rows)
    ensures Stamped(After(s, step).rows)
  {
    hide Enabled, After, Text;
    var started :| StampedBy(s.rows, started);
    var started' := if step.CreateRow? && step.id !in s.rows then started[step.id := step.startedAt] else started;
    forall id | id in After(s, step).rows ensures id in started'
        && After(s, step).rows[id].startedAt == Text(started'[id]) {
      StepStampsRow(s, step, id);
    }
    assert StampedBy(After(s, step).rows, started');
  }

  /** In every run the stored start times are the texts of start times, so comparing them compares times. */
  lemma {:induction false} RunKeepsStamps(s: State, steps: seq<Step>)
    requires Possible(s, steps) && Stamped(s.rows)
    ensures Stamped(Continue(s, steps).rows)
    decreases |steps|
  {
    hide Enabled, After, Stamped;
    if steps != [] {
      StepKeepsStamps(s, steps[0]);
      RunKeepsStamps(After(s, steps[0]), steps[1..]);
    }
  }
}

/**
 The life of a run on either path (dispatcher or manual trigger), step by step, with tasks saved and
 deleted meanwhile, and with restarts.
 */
module ExecutionProtocol {
  import opened Options
  import opened Triggers
  import opened Rfc3339
  import opened RunStores
  import opened ActionChains
  import opened ExecutionManagers

  /** What a run in flight holds or has done last. */
  datatype Phase = HasPermit | HasSlot | HasRow | Acting | Ended | NoSlot {
    predicate HoldsSlot() { HasSlot? || HasRow? || Acting? || Ended? }
    predicate IsActive() { HasRow? || Acting? || Ended? }
  }

  datatype InFlight = InFlight(task: TaskId, policy: ConcurrencyPolicy, manual: bool, phase: Phase)

  /**
   `active` is the table of cancellation tokens. The last three fields are history: all
   execution ids ever drawn, the runs granted a slot that was not released yet, and the
   runs whose manual trigger gave up after creating the row.
   */
  datatype State = State(maxConcurrent: nat, available: nat, counts: Counts, runs: map<ExecutionId, InFlight>,
                         tasks: set<TaskId>, rows: Rows, active: set<ExecutionId>,
                         used: set<ExecutionId>, slots: map<ExecutionId, TaskId>, lost: map<ExecutionId, TaskId>)

  datatype Step =
    | Arrive(id: ExecutionId, task: TaskId, policy: ConcurrencyPolicy, manual: bool)
    | TakeSlot(id: ExecutionId)
    | CreateRow(id: ExecutionId, startedAt: Utc, databaseFails: bool)
    | Answer(id: ExecutionId, serialised: bool)
    | Finish(id: ExecutionId, actions: seq<Action>, finishedAt: Utc, databaseFails: bool)
    | Release(id: ExecutionId)
    | Leave(id: ExecutionId)
    | Purge(purged: TaskId, before: Utc)
    | SaveTask(saved: TaskId)
    | DeleteTask(deleted: TaskId)
    | Restart

  predicate InPhase(s: State, id: ExecutionId, phase: Phase) {
    id in s.runs && s.runs[id].phase == phase
  }

  predicate Enabled(s: State, step: Step) {
    match step
    case Arrive(id, _, _, _) => id !in s.used
    case TakeSlot(id) => InPhase(s, id, HasPermit)
    case CreateRow(id, _, _) => InPhase(s, id, HasSlot)
    case Answer(id, _) => InPhase(s, id, HasRow)
    case Finish(id, _, _, _) => InPhase(s, id, Acting)
    case Release(id) => InPhase(s, id, Ended)
    case Leave(id) => InPhase(s, id, NoSlot)
    case _ => true
  }

  function ToPhase(s: State, id: ExecutionId, phase: Phase): State
    requires id in s.runs
  {
    s.(runs := s.runs[id := s.runs[id].(phase := phase)])
  }

  /** The run is over: its permit goes back. */
  function Gone(s: State, id: ExecutionId): State {
    s.(runs := s.runs - {id}, available := s.available + 1)
  }

  function SlotReleased(s: State, id: ExecutionId): State
    requires id in s.runs
  {
    s.(counts := Released(s.counts, s.runs[id].task), slots := s.slots - {id})
  }

  function Ending(row: Row, actions: seq<Action>, finishedAt: Utc): Row {
    var end := EndOf(actions);
    row.(status := end.status, finishedAt := Some(Text(finishedAt)), exitCode := end.exitCode,
         errorMessage := end.error)
  }

  /** A run enters if its task is still there and a permit is free. */
  function AfterArrive(s: State, id: ExecutionId, task: TaskId, policy: ConcurrencyPolicy, manual: bool): State {
    if task !in s.tasks || s.available == 0 then s
    else s.(available := s.available - 1, used := s.used + {id},
            runs := s.runs[id := InFlight(task, policy, manual, HasPermit)])
  }

  function AfterTakeSlot(s: State, id: ExecutionId): State
    requires id in s.runs
  {
    var run := s.runs[id];
    if Admits(run.policy, Count(s.counts, run.task)) then
      ToPhase(s, id, HasSlot).(counts := Acquired(s.counts, run.task), slots := s.slots[id := run.task])
    else Gone(s, id)
  }

  function FirstRow(id: ExecutionId, task: TaskId, startedAt: Utc): Row {
    RowOf(Execution(id, task, Running, startedAt, None, None, None))
  }

  function AfterCreateRow(s: State, id: ExecutionId, startedAt: Utc, databaseFails: bool): State
    requires id in s.runs
  {
    var run := s.runs[id];
    if databaseFails || id in s.rows || run.task !in s.tasks then SlotReleased(ToPhase(s, id, NoSlot), id)
    else ToPhase(s, id, if run.manual then HasRow else Acting)
           .(rows := s.rows[id := FirstRow(id, run.task, startedAt)], active := s.active + {id})
  }

  /** The manual path serialises the run for its reply before it goes on; giving up there keeps slot and row. */
  function AfterAnswer(s: State, id: ExecutionId, serialised: bool): State
    requires id in s.runs
  {
    if serialised then ToPhase(s, id, Acting)
    else Gone(s, id).(lost := s.lost[id := s.runs[id].task])
  }

  function AfterFinish(s: State, id: ExecutionId, actions: seq<Action>, finishedAt: Utc, databaseFails: bool): State
    requires id in s.runs
  {
    var rows := if databaseFails || id !in s.rows then s.rows
        else s.rows[id := Ending(s.rows[id], actions, finishedAt)];
    ToPhase(s, id, Ended).(rows := rows)
  }

  function AfterRelease(s: State, id: ExecutionId): State
    requires id in s.runs
  {
    SlotReleased(ToPhase(s, id, NoSlot), id).(active := s.active - {id})
  }

  function AfterPurge(s: State, task: TaskId, before: Utc): State {
    s.(rows := Purged(s.rows, task, Text(before)))
  }

  function AfterDeleteTask(s: State, task: TaskId): State {
    s.(tasks := s.tasks - {task}, rows := WithoutRunsOf(s.rows, task))
  }

  /** A crash loses everything but the tables; start-up recovers those before anything else runs. */
  function AfterRestart(s: State): State {
    s.(available := s.maxConcurrent, counts := map[], runs := map[], active := {}, slots := map[], lost := map[],
       rows := Recovered(s.rows))
  }

  function After(s: State, step: Step): State
    requires Enabled(s, step)
  {
    match step
    case Arrive(id, task, policy, manual) => AfterArrive(s, id, task, policy, manual)
    case TakeSlot(id) => AfterTakeSlot(s, id)
    case CreateRow(id, startedAt, databaseFails) => AfterCreateRow(s, id, startedAt, databaseFails)
    case Answer(id, serialised) => AfterAnswer(s, id, serialised)
    case Finish(id, actions, finishedAt, databaseFails) => AfterFinish(s, id, actions, finishedAt, databaseFails)
    case Release(id) => AfterRelease(s, id)
    case Leave(id) => Gone(s, id)
    case Purge(task, before) => AfterPurge(s, task, before)
    case SaveTask(task) => s.(tasks := s.tasks + {task})
    case DeleteTask(task) => AfterDeleteTask(s, task)
    case Restart => AfterRestart(s)
  }

  // ---------- who owns the slots ----------

  function OwnersOf(owners: map<ExecutionId, TaskId>, task: TaskId): set<ExecutionId> {
    set id | id in owners && owners[id] == task
  }

  /** Every task's count is the number of runs owning one of its slots. */
  ghost predicate Tallies(counts: Counts, owners: map<ExecutionId, TaskId>) {
    NoZeroEntries(counts) && forall t :: Count(counts, t) == |OwnersOf(owners, t)|
  }

  lemma OneMoreOwner(owners: map<ExecutionId, TaskId>, id: ExecutionId, task: TaskId, t: TaskId)
    requires id !in owners
    ensures |OwnersOf(owners[id := task], t)| == |OwnersOf(owners, t)| + if t == task then 1 else 0
  {
    assert OwnersOf(owners[id := task], t) == OwnersOf(owners, t) + (if t == task then {id} else {});
  }

  lemma AcquireTallies(counts: Counts, owners: map<ExecutionId, TaskId>, id: ExecutionId, task: TaskId)
    requires Tallies(counts, owners) && id !in owners
    ensures Tallies(Acquired(counts, task), owners[id := task])
  {
    forall t ensures Count(Acquired(counts, task), t) == |OwnersOf(owners[id := task], t)| {
      assert Count(counts, t) == |OwnersOf(owners, t)|;
      OneMoreOwner(owners, id, task, t);
    }
  }

  lemma ReleaseTallies(counts: Counts, owners: map<ExecutionId, TaskId>, id: ExecutionId)
    requires Tallies(counts, owners) && id in owners
    ensures Tallies(Released(counts, owners[id]), owners - {id})
  {
    forall t ensures Count(Released(counts, owners[id]), t) == |OwnersOf(owners - {id}, t)| {
      assert OwnersOf(owners - {id}, t) == OwnersOf(owners, t) - {id};
      assert t == owners[id] <==> id in OwnersOf(owners, t);
    }
  }

  /** The manager's total is the number of slot owners. */
  lemma {:induction false} TotalIsOwners(counts: Counts, owners: map<ExecutionId, TaskId>)
    requires Tallies(counts, owners)
    ensures Total(counts) == |owners|
    decreases |counts|
  {
    if counts == map[] {
      forall t ensures OwnersOf(owners, t) == {} {
        assert Count(counts, t) == |OwnersOf(owners, t)|;
      }
      forall id ensures id !in owners {
        assert id in owners ==> id in OwnersOf(owners, owners[id]);
      }
      assert owners == map[];
    } else {
      var t :| t in counts;
      TotalWithout(counts, t);
      var mine := OwnersOf(owners, t);
      forall u ensures Count(counts - {t}, u) == |OwnersOf(owners - mine, u)| {
        assert OwnersOf(owners - mine, u) == if u == t then {} else OwnersOf(owners, u);
      }
      TotalIsOwners(counts - {t}, owners - mine);
      assert owners.Keys == (owners - mine).Keys + mine;
    }
  }

  // ---------- the invariant ----------

  /** What the tables say about one execution id. */
  ghost predicate TablesFit(s: State, id: ExecutionId) {
    && (id in s.runs || id in s.lost || id in s.rows ==> id in s.used)
    && (id in s.runs ==> id !in s.lost)
    && (id in s.slots <==> (id in s.runs && s.runs[id].phase.HoldsSlot()) || id in s.lost)
    && (id in s.slots ==> s.slots[id] == if id in s.runs then s.runs[id].task else s.lost[id])
    && (id in s.active <==> (id in s.runs && s.runs[id].phase.IsActive()) || id in s.lost)
    && (id in s.runs ==> RowFits(s, id))
  }

  /** A run has no row before it inserts one; from then on the row, unless deleted with its task, is Running. */
  ghost predicate RowFits(s: State, id: ExecutionId)
    requires id in s.runs
  {
    var run := s.runs[id];
    && (run.phase.HasPermit? || run.phase.HasSlot? ==> id !in s.rows)
    && (run.phase.HasRow? || run.phase.Acting? ==>
          id in s.rows ==> s.rows[id].status == Running && s.rows[id].task == run.task)
  }

  ghost predicate PermitsAddUp(s: State) {
    s.available + |s.runs| == s.maxConcurrent
  }

  ghost predicate Inv(s: State) {
    && PermitsAddUp(s)
    && Tallies(s.counts, s.slots)
    && ForeignKeys(s.tasks, s.rows)
    && forall id :: TablesFit(s, id)
  }

  /** Start-up over existing tables. */
  function Initial(maxConcurrent: nat, tasks: set<TaskId>, rows: Rows): State {
    State(maxConcurrent, maxConcurrent, map[], map[], tasks, Recovered(rows), {}, rows.Keys, map[], map[])
  }

  lemma NothingTallies()
    ensures Tallies(map[], map[])
  {
    assert forall t: TaskId :: OwnersOf(map[], t) == {};
  }

  lemma InitialInv(maxConcurrent: nat, tasks: set<TaskId>, rows: Rows)
    requires ForeignKeys(tasks, rows)
    ensures Inv(Initial(maxConcurrent, tasks, rows))
  {
    NothingTallies();
  }

  // ---------- each step keeps it ----------

  /** Steps that are not those of one run. */
  predicate IsOutside(step: Step) { step.Purge? || step.SaveTask? || step.DeleteTask? || step.Restart? }

  /** A run keeps its permit, takes one as it arrives, or gives it back as it goes. */
  predicate PermitMoves(s: State, s': State, id: ExecutionId) {
    && s'.maxConcurrent == s.maxConcurrent
    && ((s'.runs.Keys == s.runs.Keys && s'.available == s.available)
        || (id !in s.runs && s'.runs.Keys == s.runs.Keys + {id} && s'.available == s.available - 1)
        || (id in s.runs && s'.runs.Keys == s.runs.Keys - {id} && s'.available == s.available + 1))
  }

  lemma MovedPermitsAddUp(s: State, s': State, id: ExecutionId)
    requires PermitsAddUp(s) && PermitMoves(s, s', id)
    ensures PermitsAddUp(s') && s'.maxConcurrent == s.maxConcurrent
  { }

  lemma ArriveMovesPermit(s: State, id: ExecutionId, task: TaskId, policy: ConcurrencyPolicy, manual: bool)
    requires id !in s.runs
    ensures PermitMoves(s, AfterArrive(s, id, task, policy, manual), id)
  { }

  lemma PhaseMovesNoPermit(s: State, id: ExecutionId, phase: Phase)
    requires id in s.runs
    ensures PermitMoves(s, ToPhase(s, id, phase), id) && PermitMoves(s, Gone(s, id), id)
  {
    assert ToPhase(s, id, phase).runs.Keys == s.runs.Keys;
  }

  lemma TakeSlotMovesPermit(s: State, id: ExecutionId)
    requires id in s.runs
    ensures PermitMoves(s, AfterTakeSlot(s, id), id)
  {
    hide Acquired, Admits, Count, PermitMoves;
    PhaseMovesNoPermit(s, id, HasSlot);
    SamePermits(s, ToPhase(s, id, HasSlot), AfterTakeSlot(s, id), id);
  }

  lemma SamePermits(s: State, s': State, s'': State, id: ExecutionId)
    requires PermitMoves(s, s', id)
    ensures s''.runs == s'.runs && s''.available == s'.available && s''.maxConcurrent == s'.maxConcurrent
        ==> PermitMoves(s, s'', id)
  { }

  lemma RunMovesPermit(s: State, step: Step)
    requires Enabled(s, step) && (step.CreateRow? || step.Answer? || step.Finish? || step.Release? || step.Leave?)
    ensures PermitMoves(s, After(s, step), step.id)
  {
    hide Ending, FirstRow, Released, PermitMoves;
    var id := step.id;
    var phase :=
      match step
      case CreateRow(_, _, fails) =>
        if fails || id in s.rows || s.runs[id].task !in s.tasks then NoSlot
        else if s.runs[id].manual then HasRow else Acting
      case Answer(_, _) => Acting
      case Finish(_, _, _, _) => Ended
      case _ => NoSlot;
    PhaseMovesNoPermit(s, id, phase);
    SamePermits(s, ToPhase(s, id, phase), After(s, step), id);
    SamePermits(s, Gone(s, id), After(s, step), id);
  }

  lemma StepKeepsPermits(s: State, step: Step)
    requires Inv(s) && Enabled(s, step)
    ensures PermitsAddUp(After(s, step)) && After(s, step).maxConcurrent == s.maxConcurrent
  {
    hide Tallies, RowFits, PermitMoves, PermitsAddUp, AfterArrive, AfterTakeSlot, AfterCreateRow, AfterAnswer,
        AfterFinish, AfterRelease, Gone;
    match step {
      case Arrive(id, task, policy, manual) =>
        assert TablesFit(s, id);
        ArriveMovesPermit(s, id, task, policy, manual);
        MovedPermitsAddUp(s, After(s, step), id);
      case TakeSlot(id) =>
        TakeSlotMovesPermit(s, id);
        MovedPermitsAddUp(s, After(s, step), id);
      case Purge(_, _) => IdleKeepsPermits(s, step);
      case SaveTask(_) => IdleKeepsPermits(s, step);
      case DeleteTask(_) => IdleKeepsPermits(s, step);
      case Restart => IdleKeepsPermits(s, step);
      case _ =>
        RunMovesPermit(s, step);
        MovedPermitsAddUp(s, After(s, step), step.id);
    }
  }

  lemma IdleKeepsPermits(s: State, step: Step)
    requires PermitsAddUp(s) && IsOutside(step)
    ensures PermitsAddUp(After(s, step)) && After(s, step).maxConcurrent == s.maxConcurrent
  {
    hide Purged, Recovered, WithoutRunsOf;
  }

  lemma StepKeepsTallies(s: State, step: Step)
    requires Inv(s) && Enabled(s, step)
    ensures Tallies(After(s, step).counts, After(s, step).slots)
  {
    hide Ending, FirstRow, Admits, Acquired, Released, Recovered, Purged, WithoutRunsOf, Tallies, RowFits, Count;
    match step {
      case TakeSlot(id) =>
        assert TablesFit(s, id);
        AcquireTallies(s.counts, s.slots, id, s.runs[id].task);
      case CreateRow(id, _, _) =>
        assert TablesFit(s, id);
        ReleaseTallies(s.counts, s.slots, id);
      case Release(id) =>
        assert TablesFit(s, id);
        ReleaseTallies(s.counts, s.slots, id);
      case Restart =>
        NothingTallies();
      case _ =>
    }
  }

  lemma RunningIsNotPurged(rows: Rows, task: TaskId, before: string, id: ExecutionId)
    ensures id in rows && rows[id].status == Running ==> id in Purged(rows, task, before)
    ensures id in Purged(rows, task, before) ==> id in rows && Purged(rows, task, before)[id] == rows[id]
  { }

  /** All tables say the same about `id`, except that more ids may have been drawn. */
  predicate SameAt(s: State, s': State, id: ExecutionId) {
    && (id in s.used ==> id in s'.used)
    && (id in s.active <==> id in s'.active)
    && (if id in s.runs then id in s'.runs && s'.runs[id] == s.runs[id] else id !in s'.runs)
    && (if id in s.rows then id in s'.rows && s'.rows[id] == s.rows[id] else id !in s'.rows)
    && (if id in s.slots then id in s'.slots && s'.slots[id] == s.slots[id] else id !in s'.slots)
    && (if id in s.lost then id in s'.lost && s'.lost[id] == s.lost[id] else id !in s'.lost)
  }

  lemma SameStillFits(s: State, s': State, id: ExecutionId)
    requires TablesFit(s, id) && SameAt(s, s', id)
    ensures TablesFit(s', id)
  { }

  predicate IsEarly(step: Step) { step.Arrive? || step.TakeSlot? || step.CreateRow? }

  predicate IsLate(step: Step) { step.Answer? || step.Finish? || step.Release? || step.Leave? }

  /** A run's step says nothing about other runs. */
  lemma EarlyElsewhere(s: State, step: Step, other: ExecutionId)
    requires Enabled(s, step) && IsEarly(step) && other != step.id
    ensures SameAt(s, After(s, step), other)
  {
    hide SameAt, AfterArrive, AfterTakeSlot, AfterCreateRow;
    match step {
      case Arrive(id, task, policy, manual) => ArriveElsewhere(s, id, task, policy, manual, other);
      case TakeSlot(id) => TakeSlotElsewhere(s, id, other);
      case CreateRow(id, startedAt, fails) => CreateRowElsewhere(s, id, startedAt, fails, other);
    }
  }

  lemma TakeSlotElsewhere(s: State, id: ExecutionId, other: ExecutionId)
    requires id in s.runs && other != id
    ensures SameAt(s, AfterTakeSlot(s, id), other)
  {
    hide Admits, Acquired, Count;
  }

  lemma CreateRowElsewhere(s: State, id: ExecutionId, startedAt: Utc, fails: bool, other: ExecutionId)
    requires id in s.runs && other != id
    ensures SameAt(s, AfterCreateRow(s, id, startedAt, fails), other)
  {
    hide FirstRow, Released;
  }

  lemma ArriveElsewhere(s: State, id: ExecutionId, task: TaskId, policy: ConcurrencyPolicy, manual: bool,
      other: ExecutionId)
    requires other != id
    ensures SameAt(s, AfterArrive(s, id, task, policy, manual), other)
  { }

  lemma LateElsewhere(s: State, step: Step, other: ExecutionId)
    requires Enabled(s, step) && IsLate(step) && other != step.id
    ensures SameAt(s, After(s, step), other)
  {
    hide Ending, Released, Count;
  }

  lemma EarlyStepFits(s: State, step: Step)
    requires Enabled(s, step) && IsEarly(step)
    requires TablesFit(s, step.id)
    ensures TablesFit(After(s, step), step.id)
  {
    hide Admits, Acquired, Released, Count, Text;
  }

  lemma LateStepFits(s: State, step: Step)
    requires Enabled(s, step) && IsLate(step)
    requires TablesFit(s, step.id)
    ensures TablesFit(After(s, step), step.id)
  {
    hide Ending, Released, Count;
  }

  lemma PurgeFits(s: State, step: Step, id: ExecutionId)
    requires step.Purge? && TablesFit(s, id)
    ensures TablesFit(After(s, step), id)
  {
    hide Purged, Text;
    RunningIsNotPurged(s.rows, step.purged, Text(step.before), id);
  }

  lemma SameAfterSave(s: State, step: Step, id: ExecutionId)
    requires step.SaveTask?
    ensures SameAt(s, After(s, step), id)
  { }

  lemma DeleteTaskFits(s: State, task: TaskId, id: ExecutionId)
    requires TablesFit(s, id)
    ensures TablesFit(AfterDeleteTask(s, task), id)
  { }

  lemma RestartFits(s: State, id: ExecutionId)
    requires TablesFit(s, id)
    ensures TablesFit(AfterRestart(s), id)
  { }

  lemma StepKeepsFits(s: State, step: Step, id: ExecutionId)
    requires Inv(s) && Enabled(s, step)
    ensures TablesFit(After(s, step), id)
  {
    hide Tallies, PermitsAddUp, SameAt, AfterArrive, AfterTakeSlot, AfterCreateRow, AfterAnswer, AfterFinish,
        AfterRelease, AfterPurge, AfterDeleteTask, AfterRestart, Gone, RowFits;
    assert TablesFit(s, id);
    hide TablesFit;
    match step {
      case Purge(_, _) => PurgeFits(s, step, id);
      case SaveTask(_) => SameAfterSave(s, step, id); SameStillFits(s, After(s, step), id);
      case DeleteTask(task) => DeleteTaskFits(s, task, id);
      case Restart => RestartFits(s, id);
      case _ =>
        if id != step.id {
          if IsEarly(step) { EarlyElsewhere(s, step, id); } else { LateElsewhere(s, step, id); }
          SameStillFits(s, After(s, step), id);
        } else if IsEarly(step) {
          EarlyStepFits(s, step);
        } else {
          LateStepFits(s, step);
        }
    }
  }

  /** Deleting a task is the only step that takes a task away, and it takes its runs along. */
  lemma StepKeepsForeignKeys(s: State, step: Step)
    requires Inv(s) && Enabled(s, step)
    ensures ForeignKeys(After(s, step).tasks, After(s, step).rows)
  {
    hide EndOf, Admits, Acquired, Released, Tallies, Count, Text, Expired, TablesFit;
  }

  lemma StepKeeps(s: State, step: Step)
    requires Inv(s) && Enabled(s, step)
    ensures Inv(After(s, step))
  {
    hide After, TablesFit, Tallies, ForeignKeys;
    StepKeepsTallies(s, step);
    StepKeepsPermits(s, step);
    StepKeepsForeignKeys(s, step);
    forall id ensures TablesFit(After(s, step), id) { StepKeepsFits(s, step, id); }
  }
}

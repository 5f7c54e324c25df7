/** Global permits and per-task slots. */
module ExecutionManagers {
  import opened Triggers

  datatype ConcurrencyPolicy = AllowParallel | SkipIfRunning | QueueOne

  type Counts = map<TaskId, nat>

  function Count(counts: Counts, task: TaskId): nat {
    if task in counts then counts[task] else 0
  }

  predicate NoZeroEntries(counts: Counts) {
    forall t | t in counts :: counts[t] > 0
  }

  /** How many runs of one task a policy lets run at once, if it limits them. */
  predicate Admits(policy: ConcurrencyPolicy, running: nat) {
    match policy
    case AllowParallel => true
    case SkipIfRunning => running < 1
    case QueueOne => running < 2
  }

  function Acquired(counts: Counts, task: TaskId): Counts {
    counts[task := Count(counts, task) + 1]
  }

  function Released(counts: Counts, task: TaskId): Counts {
    if Count(counts, task) > 1 then counts[task := counts[task] - 1] else counts - {task}
  }

  /** The sum of all counts. */
  ghost function Total(counts: Counts): nat
    decreases |counts|
  {
    if counts == map[] then 0
    else
      var t :| t in counts;
      counts[t] + Total(counts - {t})
  }

  lemma {:induction false} TotalWithout(counts: Counts, task: TaskId)
    requires task in counts
    ensures Total(counts) == counts[task] + Total(counts - {task})
    decreases |counts|
  {
    var t :| t in counts && Total(counts) == counts[t] + Total(counts - {t});
    if t != task {
      TotalWithout(counts - {t}, task);
      TotalWithout(counts - {task}, t);
      assert counts - {t} - {task} == counts - {task} - {t};
    }
  }

  class ExecutionManager {
    const maxConcurrent: nat
    var available: nat
    var counts: Counts

    constructor (maxConcurrent: nat)
      ensures this.maxConcurrent == maxConcurrent == available && counts == map[]
    {
      this.maxConcurrent, available, counts := maxConcurrent, maxConcurrent, map[];
    }

    method TryAcquirePermit() returns (ok: bool)
      modifies this`available
      ensures ok <==> old(available) > 0
      ensures available == if ok then old(available) - 1 else old(available)
    {
      ok := available > 0;
      if ok { available := available - 1; }
    }

    method DropPermit()
      modifies this`available
      ensures available == old(available) + 1
    {
      available := available + 1;
    }

    /** Looking the task up leaves a zero entry only if the slot is then taken. */
    method TryAcquireSlot(task: TaskId, policy: ConcurrencyPolicy) returns (ok: bool)
      requires NoZeroEntries(counts)
      modifies this`counts
      ensures NoZeroEntries(counts)
      ensures ok <==> Admits(policy, old(Count(counts, task)))
      ensures counts == if ok then Acquired(old(counts), task) else old(counts)
    {
      if task !in counts { counts := counts[task := 0]; }
      match policy {
        case AllowParallel =>
          counts := counts[task := counts[task] + 1];
          return true;
        case SkipIfRunning =>
          if counts[task] > 0 { return false; }
          counts := counts[task := counts[task] + 1];
          return true;
        case QueueOne =>
          if counts[task] >= 2 { return false; }
          counts := counts[task := counts[task] + 1];
          return true;
      }
    }

    method ReleaseSlot(task: TaskId)
      requires NoZeroEntries(counts)
      modifies this`counts
      ensures NoZeroEntries(counts) && counts == Released(old(counts), task)
    {
      if task in counts {
        if counts[task] > 0 { counts := counts[task := counts[task] - 1]; }
        if counts[task] == 0 { counts := counts - {task}; }
      }
      assert counts == Released(old(counts), task);
    }

    method TotalRunningCount() returns (total: nat)
      ensures total == Total(counts)
    {
      total := 0;
      var todo := counts;
      while todo != map[]
        invariant todo.Keys <= counts.Keys && total + Total(todo) == Total(counts)
        decreases |todo|
      {
        var t :| t in todo;
        TotalWithout(todo, t);
        total := total + todo[t];
        todo := todo - {t};
      }
    }
  }
}

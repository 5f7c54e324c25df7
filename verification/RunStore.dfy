/**
 The table of task runs: inserts, updates, recovery, the retention purge, the cascade that follows a
 deleted task, and the queries for the latest runs.
 */
module RunStores {
  import opened Options
  import opened Triggers
  import opened Rfc3339

  type ExecutionId = nat

  datatype Status = Queued | Running | Succeeded | Failed | TimedOut | Cancelled | Skipped | Interrupted

  datatype Execution = Execution(id: ExecutionId, task: TaskId, status: Status, startedAt: Utc,
                                 finishedAt: Option<Utc>, exitCode: Option<int>, errorMessage: Option<string>)

  /** A row as stored: times are text. */
  datatype Row = Row(task: TaskId, status: Status, startedAt: string,
                     finishedAt: Option<string>, exitCode: Option<int>, errorMessage: Option<string>)

  type Rows = map<ExecutionId, Row>

  const RESTARTED: string := "Agent restarted unexpectedly"

  function TextOf(time: Option<Utc>): Option<string> {
    match time
    case None => None
    case Some(t) => Some(Text(t))
  }

  function RowOf(run: Execution): Row {
    Row(run.task, run.status, Text(run.startedAt), TextOf(run.finishedAt), run.exitCode, run.errorMessage)
  }

  /** An update leaves the task and the start time alone. */
  function Updated(row: Row, run: Execution): Row {
    row.(status := run.status, finishedAt := TextOf(run.finishedAt), exitCode := run.exitCode,
        errorMessage := run.errorMessage)
  }

  function Recovered(rows: Rows): Rows {
    map id | id in rows ::
      if rows[id].status == Running then rows[id].(status := Interrupted, errorMessage := Some(RESTARTED)) else rows[id]
  }

  predicate Expired(row: Row, task: TaskId, before: string) {
    row.task == task && TextLess(row.startedAt, before) && row.status != Running
  }

  function Purged(rows: Rows, task: TaskId, before: string): Rows {
    map id | id in rows && !Expired(rows[id], task, before) :: rows[id]
  }

  /** Deleting a task takes its runs along, whatever their status. */
  function WithoutRunsOf(rows: Rows, task: TaskId): Rows {
    map id | id in rows && rows[id].task != task :: rows[id]
  }

  /** Every run belongs to a task that exists. */
  predicate ForeignKeys(tasks: set<TaskId>, rows: Rows) {
    forall id | id in rows :: rows[id].task in tasks
  }

  /** Row `a` sorts before row `b` in `ORDER BY started_at DESC, id DESC`. */
  predicate SortsAbove(rows: Rows, a: ExecutionId, b: ExecutionId)
    requires a in rows && b in rows
  {
    TextLess(rows[b].startedAt, rows[a].startedAt) || (rows[a].startedAt == rows[b].startedAt && a > b)
  }

  /** The row numbered 1 in its task's partition. */
  predicate IsTopOfTask(rows: Rows, id: ExecutionId)
    requires id in rows
  {
    forall other | other in rows && rows[other].task == rows[id].task :: other == id || SortsAbove(rows, id, other)
  }

  predicate IsNewestOf(rows: Rows, id: ExecutionId, ids: set<ExecutionId>)
    requires ids <= rows.Keys && id in rows
  {
    forall other | other in ids :: !TextLess(rows[id].startedAt, rows[other].startedAt)
  }

  /** Distinct rows, none followed by a newer one or leaving a newer one out. */
  predicate IsNewestFirst(rows: Rows, recent: seq<ExecutionId>) {
    && (forall id | id in recent :: id in rows)
    && (forall i, j | 0 <= i < j < |recent| ::
          recent[i] != recent[j] && !TextLess(rows[recent[i]].startedAt, rows[recent[j]].startedAt))
    && (forall i, id | 0 <= i < |recent| && id in rows && id !in recent ::
          !TextLess(rows[recent[i]].startedAt, rows[id].startedAt))
  }

  class RunStore {
    var tasks: set<TaskId>
    var rows: Rows

    constructor (tasks: set<TaskId>, rows: Rows)
      ensures this.tasks == tasks && this.rows == rows
    {
      this.tasks, this.rows := tasks, rows;
    }

    /** Saving a task inserts or updates it in place; its runs stay. */
    method SaveTask(task: TaskId)
      modifies this`tasks
      ensures tasks == old(tasks) + {task}
    {
      tasks := tasks + {task};
    }

    /** The task goes, and with it exactly the runs that refer to it, so no run is left without its task. */
    method DeleteTask(task: TaskId)
      modifies this
      ensures tasks == old(tasks) - {task} && rows == WithoutRunsOf(old(rows), task)
      ensures old(ForeignKeys(tasks, rows)) ==> ForeignKeys(tasks, rows)
    {
      tasks := tasks - {task};
      rows := rows - set id | id in rows && rows[id].task == task;
    }

    /** The insert fails when the id is taken, when the task is gone, or when the database fails. */
    method CreateRun(run: Execution, databaseFails: bool) returns (ok: bool)
      modifies this`rows
      ensures ok <==> !databaseFails && run.id !in old(rows) && run.task in tasks
      ensures rows == if ok then old(rows)[run.id := RowOf(run)] else old(rows)
      ensures old(ForeignKeys(tasks, rows)) ==> ForeignKeys(tasks, rows)
    {
      if databaseFails || run.id in rows || run.task !in tasks { return false; }
      rows := rows[run.id := RowOf(run)];
      return true;
    }

    method UpdateRun(run: Execution, databaseFails: bool) returns (ok: bool)
      modifies this`rows
      ensures ok <==> !databaseFails
      ensures rows == if ok && run.id in old(rows) then old(rows)[run.id := Updated(old(rows)[run.id], run)]
          else old(rows)
    {
      if databaseFails { return false; }
      if run.id in rows {
        rows := rows[run.id := Updated(rows[run.id], run)];
      }
      return true;
    }

    /** Start-up recovery: exactly the Running rows change, to Interrupted; answers how many. */
    method RecoverDanglingExecutions() returns (affected: nat)
      modifies this`rows
      ensures rows == Recovered(old(rows)) && rows.Keys == old(rows).Keys
      ensures forall id | id in rows :: rows[id].status != Running
      ensures forall id | id in rows :: rows[id] != old(rows)[id] <==> old(rows)[id].status == Running
      ensures forall id | id in rows && rows[id] != old(rows)[id] ::
                rows[id].status == Interrupted && rows[id].startedAt == old(rows)[id].startedAt
                && rows[id].task == old(rows)[id].task
      ensures affected == |set id | id in rows && rows[id] != old(rows)[id]|
    {
      var dangling := set id | id in rows && rows[id].status == Running;
      affected := |dangling|;
      var todo := dangling;
      while todo != {}
        invariant todo <= dangling && rows.Keys == old(rows).Keys
        invariant forall id | id in rows ::
                    rows[id] == if id in dangling - todo
                                then old(rows)[id].(status := Interrupted, errorMessage := Some(RESTARTED))
                                else old(rows)[id]
        decreases |todo|
      {
        var id :| id in todo;
        todo := todo - {id};
        rows := rows[id := rows[id].(status := Interrupted, errorMessage := Some(RESTARTED))];
      }
      assert (set id | id in rows && rows[id] != old(rows)[id]) == dangling;
    }

    method PurgeExpiredRuns(task: TaskId, before: Utc) returns (affected: nat)
      modifies this`rows
      ensures rows == Purged(old(rows), task, Text(before))
      ensures affected == |old(rows)| - |rows|
    {
      ghost var was := rows;
      var doomed := set id | id in rows && Expired(rows[id], task, Text(before));
      affected := |doomed|;
      rows := rows - doomed;
      assert was.Keys == rows.Keys + doomed && rows.Keys !! doomed;
    }

    /** The `limit` newest rows, newest first; rows with equal texts come in any order. */
    method FindRecentRuns(limit: nat) returns (recent: seq<ExecutionId>)
      ensures |recent| == if |rows| < limit then |rows| else limit
      ensures IsNewestFirst(rows, recent)
    {
      hide TextLess;
      recent := [];
      var todo := rows.Keys;
      while todo != {} && |recent| < limit
        invariant todo <= rows.Keys && |recent| + |todo| == |rows| && |recent| <= limit
        invariant forall id | id in rows :: id in recent <==> id !in todo
        invariant IsNewestFirst(rows, recent)
        decreases |todo|
      {
        ghost var newest := TopAmong(rows, todo);
        assert IsNewestOf(rows, newest, todo) by { TopIsNewest(rows, newest, todo); }
        var id :| id in todo && IsNewestOf(rows, id, todo);
        OneMoreRecent(rows, recent, id, todo);
        todo := todo - {id};
        recent := recent + [id];
      }
    }

    /** One run per asked task that has any: the row numbered 1. */
    method FindLatestRunPerTask(tasks: set<TaskId>) returns (latest: map<TaskId, ExecutionId>)
      ensures forall t | t in latest ::
                t in tasks && latest[t] in rows && rows[latest[t]].task == t && IsTopOfTask(rows, latest[t])
      ensures forall id | id in rows && rows[id].task in tasks :: rows[id].task in latest
    {
      latest := map[];
      var todo := set id | id in rows && rows[id].task in tasks && IsTopOfTask(rows, id);
      ghost var all := todo;
      while todo != {}
        invariant todo <= all
        invariant forall t | t in latest ::
                    t in tasks && latest[t] in rows && rows[latest[t]].task == t && IsTopOfTask(rows, latest[t])
        invariant forall id | id in all - todo :: rows[id].task in latest
        decreases |todo|
      {
        var id :| id in todo;
        todo := todo - {id};
        latest := latest[rows[id].task := id];
      }
      forall id | id in rows && rows[id].task in tasks ensures rows[id].task in latest {
        var top := TopExists(rows, rows[id].task, id);
        assert top in all;
      }
    }
  }

  // ---------- text comparisons mean time comparisons ----------

  lemma {:induction false} TextTotal(a: string, b: string)
    ensures TextLess(a, b) || a == b || TextLess(b, a)
    ensures !(TextLess(a, b) && TextLess(b, a))
  {
    if a != [] && b != [] && a[0] == b[0] {
      TextTotal(a[1..], b[1..]);
      assert a == [a[0]] + a[1..] && b == [b[0]] + b[1..];
    }
  }

  lemma {:induction false} TextTransitive(a: string, b: string, c: string)
    requires TextLess(a, b) && TextLess(b, c)
    ensures TextLess(a, c)
  {
    if a != [] && a[0] == b[0] && b[0] == c[0] { TextTransitive(a[1..], b[1..], c[1..]); }
  }

  lemma SortsTransitive(rows: Rows, a: ExecutionId, b: ExecutionId, c: ExecutionId)
    requires a in rows && b in rows && c in rows
    requires SortsAbove(rows, a, b) && SortsAbove(rows, b, c)
    ensures SortsAbove(rows, a, c)
  {
    hide TextLess;
    if TextLess(rows[b].startedAt, rows[a].startedAt) && TextLess(rows[c].startedAt, rows[b].startedAt) {
      TextTransitive(rows[c].startedAt, rows[b].startedAt, rows[a].startedAt);
    }
  }

  lemma SortsTotal(rows: Rows, a: ExecutionId, b: ExecutionId)
    requires a in rows && b in rows && a != b
    ensures SortsAbove(rows, a, b) || SortsAbove(rows, b, a)
  {
    hide TextLess;
    TextTotal(rows[a].startedAt, rows[b].startedAt);
  }

  lemma TopExists(rows: Rows, task: TaskId, some: ExecutionId) returns (top: ExecutionId)
    requires some in rows && rows[some].task == task
    ensures top in rows && rows[top].task == task && IsTopOfTask(rows, top)
  {
    var ids := set id | id in rows && rows[id].task == task;
    assert some in ids;
    top := TopAmong(rows, ids);
  }

  lemma {:induction false} TopAmong(rows: Rows, ids: set<ExecutionId>) returns (top: ExecutionId)
    requires ids != {} && ids <= rows.Keys
    ensures top in ids && forall other | other in ids :: other == top || SortsAbove(rows, top, other)
    decreases |ids|
  {
    hide SortsAbove;
    top :| top in ids;
    if ids != {top} {
      var rest := ids - {top};
      assert rest != {};
      var best := TopAmong(rows, rest);
      SortsTotal(rows, top, best);
      if SortsAbove(rows, top, best) {
        forall other | other in rest ensures SortsAbove(rows, top, other) {
          if other != best { SortsTransitive(rows, top, best, other); }
        }
      } else {
        top := best;
      }
    }
  }

  lemma TopIsNewest(rows: Rows, top: ExecutionId, ids: set<ExecutionId>)
    requires ids <= rows.Keys && top in ids
    requires forall other | other in ids :: other == top || SortsAbove(rows, top, other)
    ensures IsNewestOf(rows, top, ids)
  {
    hide TextLess;
    forall other | other in ids ensures !TextLess(rows[top].startedAt, rows[other].startedAt) {
      TextTotal(rows[top].startedAt, rows[other].startedAt);
    }
  }

  lemma OneMoreRecent(rows: Rows, recent: seq<ExecutionId>, id: ExecutionId, todo: set<ExecutionId>)
    requires IsNewestFirst(rows, recent) && todo <= rows.Keys && id in todo && IsNewestOf(rows, id, todo)
    requires forall other | other in rows :: other in recent <==> other !in todo
    ensures IsNewestFirst(rows, recent + [id])
  {
    hide TextLess;
    assert forall i | 0 <= i < |recent| :: recent[i] in recent;
  }

  /** The stored texts are those of the runs' start times. */
  ghost predicate StampedBy(rows: Rows, started: map<ExecutionId, Utc>) {
    forall id | id in rows :: id in started && rows[id].startedAt == Text(started[id])
  }

  lemma TextEqualIsTimeEqual(a: Utc, b: Utc)
    ensures Text(a) == Text(b) <==> Instant(a) == Instant(b)
  {
    hide Text, TextLess, Instant;
    TextOrderIsTimeOrder(a, b);
    TextOrderIsTimeOrder(b, a);
    TextTotal(Text(a), Text(b));
    Irreflexive(Text(a));
  }

  predicate SameTime(a: Option<Utc>, b: Option<Utc>) {
    a.Some? == b.Some? && (a.Some? ==> Instant(a.value) == Instant(b.value))
  }

  predicate SameOutcome(a: Execution, b: Execution) {
    a.status == b.status && SameTime(a.finishedAt, b.finishedAt) && a.exitCode == b.exitCode
    && a.errorMessage == b.errorMessage
  }

  /** A stored row tells everything of its run, and shows an unfinished one without an end. */
  lemma RowsTellRuns(a: Execution, b: Execution)
    ensures RowOf(a) == RowOf(b) <==> a.task == b.task && Instant(a.startedAt) == Instant(b.startedAt)
                                      && SameOutcome(a, b)
    ensures RowOf(a).task == a.task && RowOf(a).status == a.status && RowOf(a).exitCode == a.exitCode
    ensures (RowOf(a).finishedAt.None? <==> a.finishedAt.None?) && RowOf(a).errorMessage == a.errorMessage
  {
    hide Text, Instant;
    TextEqualIsTimeEqual(a.startedAt, b.startedAt);
    if a.finishedAt.Some? && b.finishedAt.Some? { TextEqualIsTimeEqual(a.finishedAt.value, b.finishedAt.value); }
  }

  /** Updating the row of `a` by `b` stores just the runs with the task and the start of `a` and the outcome of `b`. */
  lemma UpdateReplacesOutcome(a: Execution, b: Execution, c: Execution)
    ensures Updated(RowOf(a), b) == RowOf(c) <==> c.task == a.task && Instant(c.startedAt) == Instant(a.startedAt)
                                                  && SameOutcome(b, c)
    ensures Updated(Updated(RowOf(a), b), c) == Updated(RowOf(a), c)
  {
    RowsTellRuns(b.(task := a.task, startedAt := a.startedAt), c);
  }

  /** The purge deletes exactly the task's finished runs that started before the cutoff. */
  lemma PurgeIsExact(rows: Rows, started: map<ExecutionId, Utc>, task: TaskId, before: Utc, id: ExecutionId)
    requires StampedBy(rows, started) && id in rows
    ensures id in Purged(rows, task, Text(before))
        <==> !(rows[id].task == task && Instant(started[id]) < Instant(before) && rows[id].status != Running)
    ensures id in Purged(rows, task, Text(before)) ==> Purged(rows, task, Text(before))[id] == rows[id]
  {
    hide Text, TextLess, Instant;
    TextOrderIsTimeOrder(started[id], before);
  }

  /** The row numbered 1 is the task's truly latest run, the larger id winning a tie. */
  lemma TopIsLatest(rows: Rows, started: map<ExecutionId, Utc>, id: ExecutionId)
    requires StampedBy(rows, started) && id in rows
    ensures IsTopOfTask(rows, id)
        <==> forall other | other in rows && rows[other].task == rows[id].task ::
               Instant(started[other]) < Instant(started[id])
               || (Instant(started[other]) == Instant(started[id]) && other <= id)
  {
    hide Text, TextLess, Instant;
    forall other | other in rows && rows[other].task == rows[id].task
      ensures other == id || SortsAbove(rows, id, other)
          <==> Instant(started[other]) < Instant(started[id])
               || (Instant(started[other]) == Instant(started[id]) && other <= id)
    {
      TextOrderIsTimeOrder(started[other], started[id]);
      TextEqualIsTimeEqual(started[other], started[id]);
    }
  }

  /** The recent runs are the truly latest ones, in order of their start times. */
  lemma RecentAreLatest(rows: Rows, started: map<ExecutionId, Utc>, recent: seq<ExecutionId>)
    requires StampedBy(rows, started)
    ensures IsNewestFirst(rows, recent) <==>
              && (forall id | id in recent :: id in rows)
              && (forall i, j | 0 <= i < j < |recent| ::
                    recent[i] != recent[j] && Instant(started[recent[i]]) >= Instant(started[recent[j]]))
              && (forall i, id | 0 <= i < |recent| && id in rows && id !in recent ::
                    Instant(started[recent[i]]) >= Instant(started[id]))
  {
    hide Text, TextLess, Instant;
    forall a, b | a in rows && b in rows
      ensures TextLess(rows[a].startedAt, rows[b].startedAt) <==> Instant(started[a]) < Instant(started[b])
    {
      TextOrderIsTimeOrder(started[a], started[b]);
    }
    assert forall i | 0 <= i < |recent| :: recent[i] in recent;
  }
}

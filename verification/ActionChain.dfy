/** Running a task's actions one after the other, and the status the run ends with. */
module ActionChains {
  import opened Options
  import opened RunStores

  /** How one process ended, or why it could not be run. */
  datatype Outcome =
    | Exited(code: Option<int>)
    | OutOfTime
    | CancelledByUser
    | CouldNotRun(reason: string)

  datatype Action = Action(enabled: bool, outcome: Outcome)

  /** What a run result carries into the row. */
  datatype RunResult = RunResult(status: Status, exitCode: Option<int>, error: Option<string>)

  /** The runner's answer: success is exit code 0 and nothing else. */
  function RunAction(outcome: Outcome): Result<RunResult, string> {
    match outcome
    case Exited(code) =>
      if code == Some(0) then Ok(RunResult(Succeeded, code, None))
      else Ok(RunResult(Failed, code, Some("Exited with code")))
    case OutOfTime => Ok(RunResult(TimedOut, None, Some("Timed out")))
    case CancelledByUser => Ok(RunResult(Cancelled, None, Some("Cancelled by user")))
    case CouldNotRun(reason) => Err(reason)
  }

  predicate Passes(a: Action) {
    a.enabled ==> a.outcome == Exited(Some(0))
  }

  /** The number of leading actions that are disabled or succeed. */
  function PassedPrefix(actions: seq<Action>): (n: nat)
    ensures n <= |actions|
    ensures forall i | 0 <= i < n :: Passes(actions[i])
    ensures n < |actions| ==> !Passes(actions[n])
  {
    if actions == [] || !Passes(actions[0]) then 0 else 1 + PassedPrefix(actions[1..])
  }

  /** The status of a run whose first failing action ended this way. */
  function FailureStatus(outcome: Outcome): Status {
    match outcome
    case Exited(_) => Failed
    case OutOfTime => TimedOut
    case CancelledByUser => Cancelled
    case CouldNotRun(_) => Failed
  }

  /** The exit code left behind: the last one a finished process reported, or 0 if none ran. */
  function ExitCodeAfter(actions: seq<Action>): Option<int> {
    if actions == [] then Some(0)
    else
      var last := actions[|actions| - 1];
      if !last.enabled || last.outcome.CouldNotRun? then ExitCodeAfter(actions[..|actions| - 1])
      else match last.outcome
           case Exited(code) => code
           case _ => None
  }

  /** The status, exit code and error a chain of actions ends with. */
  function EndOf(actions: seq<Action>): RunResult {
    var n := PassedPrefix(actions);
    if n == |actions| then RunResult(Succeeded, ExitCodeAfter(actions), None)
    else
      var outcome := actions[n].outcome;
      RunResult(FailureStatus(outcome), ExitCodeAfter(actions[..n + 1]), ErrorOf(outcome))
  }

  function ErrorOf(outcome: Outcome): Option<string> {
    match RunAction(outcome)
    case Ok(r) => r.error
    case Err(reason) => Some(reason)
  }

  /** Action `k` is the first enabled one that does not exit with 0. */
  predicate IsFirstToFail(actions: seq<Action>, k: nat) {
    && k < |actions| && actions[k].enabled && actions[k].outcome != Exited(Some(0))
    && forall i | 0 <= i < k && actions[i].enabled :: actions[i].outcome == Exited(Some(0))
  }

  predicate AllSucceed(actions: seq<Action>) {
    forall i | 0 <= i < |actions| && actions[i].enabled :: actions[i].outcome == Exited(Some(0))
  }

  /** What is recorded of a chain, told by its first failing action, if it has one. */
  ghost predicate Records(actions: seq<Action>, result: RunResult) {
    && (AllSucceed(actions) ==> result == RunResult(Succeeded, Some(0), None))
    && forall k: nat | IsFirstToFail(actions, k) ::
         result.error.Some?
         && match actions[k].outcome
            case Exited(code) => result.status == Failed && result.exitCode == code
            case OutOfTime => result.status == TimedOut && result.exitCode == None
            case CancelledByUser => result.status == Cancelled && result.exitCode == None
            case CouldNotRun(reason) =>
              result.status == Failed && result.exitCode == Some(0) && result.error == Some(reason)
  }

  lemma {:induction false} PassingLeavesZero(actions: seq<Action>)
    requires forall i | 0 <= i < |actions| :: Passes(actions[i])
    ensures ExitCodeAfter(actions) == Some(0)
  {
    if actions != [] { PassingLeavesZero(actions[..|actions| - 1]); }
  }

  /** Every chain succeeds or has one first failing action, and that decides what it ends with. */
  lemma EndRecords(actions: seq<Action>)
    ensures Records(actions, EndOf(actions))
    ensures AllSucceed(actions) <==> !exists k: nat :: IsFirstToFail(actions, k)
    ensures forall j: nat, k: nat | IsFirstToFail(actions, j) && IsFirstToFail(actions, k) :: j == k
  {
    var n := PassedPrefix(actions);
    PassingLeavesZero(actions[..n]);
    if n < |actions| {
      assert IsFirstToFail(actions, n);
      assert actions[..n + 1][..n] == actions[..n];
    } else {
      assert actions[..n] == actions;
    }
    forall k: nat | IsFirstToFail(actions, k) ensures k == n {
      assert !Passes(actions[k]);
    }
  }

  /**
   The run succeeds iff every enabled action exits with 0; otherwise the first failing
   action decides, and no later one is started.
   */
  method RunActions(actions: seq<Action>) returns (result: RunResult, started: nat)
    ensures result.status == Succeeded <==> forall a | a in actions :: Passes(a)
    ensures result.status == Succeeded ==> started == |actions| && result.error == None
    ensures result.status != Succeeded ==>
              && started == PassedPrefix(actions) + 1 <= |actions|
              && result.status == FailureStatus(actions[started - 1].outcome)
              && result.error.Some?
    ensures Records(actions, result)
    ensures result == EndOf(actions) && result.exitCode == ExitCodeAfter(actions[..started])
  {
    hide Records;
    EndRecords(actions);
    result := RunResult(Succeeded, Some(0), None);
    started := 0;
    while started < |actions|
      invariant 0 <= started <= |actions|
      invariant result.status == Succeeded && result.error == None
      invariant forall i | 0 <= i < started :: Passes(actions[i])
      invariant result.exitCode == ExitCodeAfter(actions[..started])
    {
      var action := actions[started];
      started := started + 1;
      assert actions[..started][..started - 1] == actions[..started - 1];
      if !action.enabled { continue; }
      match RunAction(action.outcome) {
        case Ok(r) =>
          result := result.(exitCode := r.exitCode);
          if r.status != Succeeded {
            result := result.(status := r.status, error := r.error);
            FirstFailure(actions, started - 1);
            return;
          }
        case Err(reason) =>
          result := result.(status := Failed, error := Some(reason));
          FirstFailure(actions, started - 1);
          return;
      }
    }
    assert actions[..started] == actions;
  }

  lemma FirstFailure(actions: seq<Action>, n: nat)
    requires n < |actions| && !Passes(actions[n])
    requires forall i | 0 <= i < n :: Passes(actions[i])
    ensures PassedPrefix(actions) == n && actions[n] in actions
  { }
}

/** Concurrent calls over one connection: the table of pending replies and its reader. */
module IpcClients {
  import opened Options

  type RequestId = string
  /** A call and its one-shot reply channel. */
  type CallId = nat

  datatype Response = Response(id: RequestId, body: string)

  datatype Channel = Open | Holds(reply: Response) | Closed

  datatype Failure = CouldNotSend | ChannelClosed | TimedOut

  datatype Phase =
    | Sending
    | Waiting
    | Removing(failure: Failure)  // about to take its id out of the table
    | Answered(reply: Response)
    | Failed(failure: Failure)
  {
    predicate Returned() { Answered? || Failed? }
  }

  datatype Call = Call(id: RequestId, channel: Channel, phase: Phase)

  datatype State = State(pending: map<RequestId, CallId>, calls: map<CallId, Call>, readerGone: bool)

  const START: State := State(map[], map[], false)

  datatype Step =
    | Register(call: CallId, id: RequestId)
    | Sent(call: CallId, ok: bool)
    | Deliver(reply: Response)
    | Receive(call: CallId)
    | SeeClosed(call: CallId)
    | TimeOut(call: CallId)
    | Remove(call: CallId)
    | ReaderExits

  predicate InPhase(s: State, c: CallId, phase: Phase) {
    c in s.calls && s.calls[c].phase == phase
  }

  /** Request ids are drawn fresh, never to be drawn again. */
  predicate Fresh(s: State, id: RequestId) {
    forall c | c in s.calls :: s.calls[c].id != id
  }

  predicate Enabled(s: State, step: Step) {
    match step
    case Register(c, id) => c !in s.calls && Fresh(s, id)
    case Sent(c, _) => InPhase(s, c, Sending)
    case Deliver(_) => !s.readerGone
    case Receive(c) => InPhase(s, c, Waiting) && s.calls[c].channel.Holds?
    case SeeClosed(c) => InPhase(s, c, Waiting) && s.calls[c].channel.Closed?
    case TimeOut(c) => InPhase(s, c, Waiting) && s.calls[c].channel.Open?
    case Remove(c) => c in s.calls && s.calls[c].phase.Removing?
    case ReaderExits => !s.readerGone
  }

  function ToPhase(s: State, c: CallId, phase: Phase): State
    requires c in s.calls
  {
    s.(calls := s.calls[c := s.calls[c].(phase := phase)])
  }

  /** Dropping the sender of an unanswered call closes its channel. */
  function Dropped(call: Call): Call {
    if call.channel.Open? then call.(channel := Closed) else call
  }

  function AllDropped(s: State): map<CallId, Call> {
    map c | c in s.calls :: if c in s.pending.Values then Dropped(s.calls[c]) else s.calls[c]
  }

  /** Taking an id out of the table drops the sender it held. */
  function Forgotten(s: State, id: RequestId): State {
    if id !in s.pending then s
    else
      var c := s.pending[id];
      s.(pending := s.pending - {id},
         calls := if c in s.calls then s.calls[c := Dropped(s.calls[c])] else s.calls)
  }

  /** A reply goes to the channel registered under its id, if any; the entry is used up. */
  function Delivered(s: State, reply: Response): State {
    if reply.id !in s.pending then s
    else
      var c := s.pending[reply.id];
      var s' := s.(pending := s.pending - {reply.id});
      if c in s.calls && s.calls[c].channel.Open?
          then s'.(calls := s.calls[c := s.calls[c].(channel := Holds(reply))]) else s'
  }

  function After(s: State, step: Step): State
    requires Enabled(s, step)
  {
    match step
    case Register(c, id) => s.(pending := s.pending[id := c], calls := s.calls[c := Call(id, Open, Sending)])
    case Sent(c, ok) => ToPhase(s, c, if ok then Waiting else Removing(CouldNotSend))
    case Deliver(reply) => Delivered(s, reply)
    case Receive(c) => ToPhase(s, c, Answered(s.calls[c].channel.reply))
    case SeeClosed(c) => ToPhase(s, c, Removing(ChannelClosed))
    case TimeOut(c) => ToPhase(s, c, Removing(TimedOut))
    case Remove(c) => ToPhase(Forgotten(s, s.calls[c].id), c, Failed(s.calls[c].phase.failure))
    case ReaderExits => s.(pending := map[], calls := AllDropped(s), readerGone := true)
  }

  /** How a waiting call goes on, by what its channel holds. */
  function EndOfWait(c: CallId, channel: Channel): Step {
    match channel
    case Holds(_) => Receive(c)
    case Closed => SeeClosed(c)
    case Open => TimeOut(c)
  }

  // ---------- the table ----------

  class PendingResponses {
    var pending: map<RequestId, CallId>

    constructor ()
      ensures pending == map[]
    {
      pending := map[];
    }

    method Insert(id: RequestId, c: CallId)
      modifies this
      ensures pending == old(pending)[id := c]
    {
      pending := pending[id := c];
    }

    method Take(id: RequestId) returns (found: Option<CallId>)
      modifies this
      ensures pending == old(pending) - {id}
      ensures found == if id in old(pending) then Some(old(pending)[id]) else None
    {
      found := None;
      if id in pending {
        found := Some(pending[id]);
        pending := pending - {id};
      }
    }

    method Clear()
      modifies this
      ensures pending == map[]
    {
      pending := map[];
    }
  }

  class IpcClient {
    const table: PendingResponses
    var calls: map<CallId, Call>
    var readerGone: bool

    ghost function View(): State
      reads this, table
    {
      State(table.pending, calls, readerGone)
    }

    constructor ()
      ensures fresh(table) && View() == START
    {
      table := new PendingResponses();
      calls, readerGone := map[], false;
    }

    method Begin(c: CallId, id: RequestId)
      requires Enabled(View(), Register(c, id))
      modifies this, table
      ensures View() == After(old(View()), Register(c, id))
    {
      calls := calls[c := Call(id, Open, Sending)];
      table.Insert(id, c);
    }

    method SendRequest(c: CallId, ok: bool)
      requires Enabled(View(), Sent(c, ok))
      modifies this
      ensures View() == After(old(View()), Sent(c, ok))
    {
      calls := calls[c := calls[c].(phase := if ok then Waiting else Removing(CouldNotSend))];
    }

    method OnResponse(reply: Response)
      requires Enabled(View(), Deliver(reply))
      modifies this, table
      ensures View() == After(old(View()), Deliver(reply))
    {
      var found := table.Take(reply.id);
      match found {
        case Some(c) =>
          if c in calls && calls[c].channel.Open? { calls := calls[c := calls[c].(channel := Holds(reply))]; }
        case None =>
          assert old(table.pending) - {reply.id} == old(table.pending);
      }
    }

    /** The wait is over: a reply, a closed channel, or the timeout while the channel is still open. */
    method EndWait(c: CallId)
      requires InPhase(View(), c, Waiting)
      modifies this
      ensures View() == After(old(View()), EndOfWait(c, old(calls[c].channel)))
    {
      match calls[c].channel {
        case Holds(reply) => calls := calls[c := calls[c].(phase := Answered(reply))];
        case Closed => calls := calls[c := calls[c].(phase := Removing(ChannelClosed))];
        case Open => calls := calls[c := calls[c].(phase := Removing(TimedOut))];
      }
    }

    method CleanUp(c: CallId)
      requires Enabled(View(), Remove(c))
      modifies this, table
      ensures View() == After(old(View()), Remove(c))
    {
      var failure := calls[c].phase.failure;
      var found := table.Take(calls[c].id);
      match found {
        case Some(d) => if d in calls { calls := calls[d := Dropped(calls[d])]; }
        case None => assert old(table.pending) - {old(calls[c].id)} == old(table.pending);
      }
      calls := calls[c := calls[c].(phase := Failed(failure))];
    }

    method OnReaderExit()
      requires Enabled(View(), ReaderExits)
      modifies this, table
      ensures View() == After(old(View()), ReaderExits)
    {
      var open := table.pending.Values;
      calls := map c | c in calls :: if c in open then Dropped(calls[c]) else calls[c];
      table.Clear();
      readerGone := true;
    }
  }

  // ---------- the invariant ----------

  /** An entry is there exactly while its call can still be answered; a reply held is the call's own. */
  ghost predicate CallFits(s: State, c: CallId)
    requires c in s.calls
  {
    var call := s.calls[c];
    && (call.id in s.pending <==> call.channel.Open? && !call.phase.Returned())
    && (call.channel.Holds? ==> call.channel.reply.id == call.id)
    && (call.phase.Answered? ==> call.channel == Holds(call.phase.reply))
  }

  ghost predicate Inv(s: State) {
    && (forall c | c in s.calls :: CallFits(s, c))
    && (forall id | id in s.pending :: s.pending[id] in s.calls && s.calls[s.pending[id]].id == id)
    && (forall c, d | c in s.calls && d in s.calls && s.calls[c].id == s.calls[d].id :: c == d)
  }

  lemma StepKeeps(s: State, step: Step)
    requires Inv(s) && Enabled(s, step)
    ensures Inv(After(s, step))
  {
    hide Inv, After;
    match step {
      case Register(_, _) => RegisterKeeps(s, step);
      case Deliver(reply) => DeliverKeeps(s, step);
      case Remove(c) => RemoveKeeps(s, step);
      case ReaderExits => ExitKeeps(s, step);
      case _ => PhaseStepKeeps(s, step);
    }
  }

  lemma RegisterKeeps(s: State, step: Step)
    requires Inv(s) && Enabled(s, step) && step.Register?
    ensures Inv(After(s, step))
  { }

  lemma DeliverKeeps(s: State, step: Step)
    requires Inv(s) && Enabled(s, step) && step.Deliver?
    ensures Inv(After(s, step))
  {
    assert step.reply.id in s.pending ==> CallFits(s, s.pending[step.reply.id]);
  }

  lemma RemoveKeeps(s: State, step: Step)
    requires Inv(s) && Enabled(s, step) && step.Remove?
    ensures Inv(After(s, step))
  {
    assert CallFits(s, step.call);
  }

  lemma ExitKeeps(s: State, step: Step)
    requires Inv(s) && Enabled(s, step) && step.ReaderExits?
    ensures Inv(After(s, step))
  {
    EntriesOf(s);
  }

  lemma PhaseStepKeeps(s: State, step: Step)
    requires Inv(s) && Enabled(s, step)
    requires step.Sent? || step.Receive? || step.SeeClosed? || step.TimeOut?
    ensures Inv(After(s, step))
  {
    assert CallFits(s, step.call);
  }

  lemma EntriesOf(s: State)
    requires Inv(s)
    ensures forall c | c in s.calls && c in s.pending.Values :: s.calls[c].id in s.pending
    ensures forall c | c in s.calls && s.calls[c].id in s.pending :: c in s.pending.Values
  {
    forall c | c in s.calls && s.calls[c].id in s.pending ensures c in s.pending.Values {
      assert s.pending[s.calls[c].id] == c;
    }
  }

  // ---------- whole runs ----------

  predicate Possible(s: State, steps: seq<Step>)
    decreases |steps|
  {
    steps == [] || (Enabled(s, steps[0]) && Possible(After(s, steps[0]), steps[1..]))
  }

  function Continue(s: State, steps: seq<Step>): State
    requires Possible(s, steps)
    decreases |steps|
  {
    if steps == [] then s else Continue(After(s, steps[0]), steps[1..])
  }

  lemma {:induction false} RunKeeps(s: State, steps: seq<Step>)
    requires Inv(s) && Possible(s, steps)
    ensures Inv(Continue(s, steps))
    decreases |steps|
  {
    hide Inv, Enabled, After;
    if steps != [] {
      StepKeeps(s, steps[0]);
      RunKeeps(After(s, steps[0]), steps[1..]);
    }
  }

  /** A channel that left Open keeps what it has, and a call that returned stays returned. */
  predicate Settles(s: State, s': State, c: CallId) {
    c in s.calls ==>
      && c in s'.calls && s'.calls[c].id == s.calls[c].id
      && (!s.calls[c].channel.Open? ==> s'.calls[c].channel == s.calls[c].channel)
      && (s.calls[c].phase.Returned() ==> s'.calls[c].phase == s.calls[c].phase)
  }

  lemma StepSettles(s: State, step: Step, c: CallId)
    requires Enabled(s, step)
    ensures Settles(s, After(s, step), c)
    ensures c in After(s, step).calls && After(s, step).calls[c].channel.Holds? ==>
              (c in s.calls && s.calls[c].channel == After(s, step).calls[c].channel)
              || step == Deliver(After(s, step).calls[c].channel.reply)
  { }

  lemma {:induction false} RunSettles(s: State, steps: seq<Step>, c: CallId)
    requires Possible(s, steps)
    ensures Settles(s, Continue(s, steps), c)
    ensures c in Continue(s, steps).calls && Continue(s, steps).calls[c].channel.Holds? ==>
              (c in s.calls && s.calls[c].channel == Continue(s, steps).calls[c].channel)
              || Deliver(Continue(s, steps).calls[c].channel.reply) in steps
    decreases |steps|
  {
    hide Enabled, After;
    if steps != [] {
      StepSettles(s, steps[0], c);
      RunSettles(After(s, steps[0]), steps[1..], c);
    }
  }

  /** In every run an answered call got a reply that was read and bears its own id, and a returned call has no entry. */
  lemma OwnReplyOnly(steps: seq<Step>, c: CallId)
    requires Possible(START, steps) && c in Continue(START, steps).calls
    ensures var s := Continue(START, steps); var call := s.calls[c];
            && (call.phase.Answered? ==> call.phase.reply.id == call.id && Deliver(call.phase.reply) in steps)
            && (call.phase.Returned() ==> call.id !in s.pending)
            && (call.id in s.pending ==> s.pending[call.id] == c)
  {
    hide Possible, Continue;
    RunKeeps(START, steps);
    RunSettles(START, steps, c);
    var s := Continue(START, steps);
    assert CallFits(s, c);
  }

  predicate IsOpen(s: State, c: CallId, id: RequestId) {
    c in s.calls && s.calls[c].id == id && s.calls[c].channel.Open? && !s.calls[c].phase.Returned()
  }

  /** No id is in the table but those of calls that have not returned. */
  lemma EntriesBelongToOpenCalls(steps: seq<Step>, id: RequestId)
    requires Possible(START, steps)
    ensures var s := Continue(START, steps);
            id in s.pending <==> exists c :: IsOpen(s, c, id)
  {
    hide Possible, Continue;
    RunKeeps(START, steps);
    var s := Continue(START, steps);
    if id in s.pending {
      assert CallFits(s, s.pending[id]);
      assert IsOpen(s, s.pending[id], id);
    } else {
      forall c ensures !IsOpen(s, c, id) {
        assert c in s.calls ==> CallFits(s, c);
      }
    }
  }

  /** A reply that overtakes its request's sender is kept for it, since the call registers before it sends. */
  lemma EarlyReplyIsKept(steps: seq<Step>, c: CallId, reply: Response)
    requires Possible(START, steps) && InPhase(Continue(START, steps), c, Sending)
    requires var s := Continue(START, steps);
             s.calls[c].channel.Open? && reply.id == s.calls[c].id && Enabled(s, Deliver(reply))
    ensures var s1 := After(Continue(START, steps), Deliver(reply));
            && Enabled(s1, Sent(c, true)) && Enabled(After(s1, Sent(c, true)), Receive(c))
            && InPhase(After(After(s1, Sent(c, true)), Receive(c)), c, Answered(reply))
  {
    hide Possible, Continue;
    RunKeeps(START, steps);
    assert CallFits(Continue(START, steps), c);
  }

  /** A result is final. */
  lemma ResultIsFinal(steps: seq<Step>, more: seq<Step>, c: CallId)
    requires Possible(START, steps) && Possible(Continue(START, steps), more)
    requires c in Continue(START, steps).calls && Continue(START, steps).calls[c].phase.Returned()
    ensures var s := Continue(Continue(START, steps), more);
            c in s.calls && s.calls[c].phase == Continue(START, steps).calls[c].phase
  {
    hide Possible, Continue;
    RunSettles(Continue(START, steps), more, c);
  }

  /** A reply that is late, repeated or of an unknown id changes nothing; any other reaches the one call with its id. */
  lemma StrayRepliesAreDropped(steps: seq<Step>, reply: Response)
    requires Possible(START, steps) && Enabled(Continue(START, steps), Deliver(reply))
    ensures var s := Continue(START, steps); var s' := After(s, Deliver(reply));
            && (reply.id !in s.pending ==> s' == s)
            && (reply.id in s.pending ==>
                  && var c := s.pending[reply.id];
                  && c in s.calls && s.calls[c].id == reply.id
                  && s' == s.(pending := s.pending - {reply.id},
                      calls := s.calls[c := s.calls[c].(channel := Holds(reply))]))
  {
    hide Possible, Continue;
    RunKeeps(START, steps);
    var s := Continue(START, steps);
    if reply.id in s.pending { assert CallFits(s, s.pending[reply.id]); }
  }

  /** A reader exit fails every call that has no reply yet: however it returns later, it is with an error. */
  lemma ReaderExitFailsWaiting(steps: seq<Step>, more: seq<Step>, c: CallId)
    requires Possible(START, steps) && Enabled(Continue(START, steps), ReaderExits)
    requires Possible(After(Continue(START, steps), ReaderExits), more)
    requires var s := Continue(START, steps);
             c in s.calls && !s.calls[c].phase.Returned() && !s.calls[c].channel.Holds?
    ensures var s := After(Continue(START, steps), ReaderExits);
            && s.pending == map[] && s.calls[c].channel == Closed
            && c in Continue(s, more).calls && !Continue(s, more).calls[c].phase.Answered?
  {
    hide Possible, Continue;
    RunKeeps(START, steps);
    var s := Continue(START, steps);
    StepKeeps(s, ReaderExits);
    var s' := After(s, ReaderExits);
    assert CallFits(s, c) && CallFits(s', c);
    RunSettles(s', more, c);
    RunKeeps(s', more);
    assert CallFits(Continue(s', more), c);
  }

  // ---------- why a call fails ----------

  /** The failure a call is about to return, or has returned. */
  function FailureOf(s: State, c: CallId): Option<Failure> {
    if c !in s.calls then None
    else
      match s.calls[c].phase
      case Removing(f) => Some(f)
      case Failed(f) => Some(f)
      case _ => None
  }

  predicate IsFailure(step: Step, c: CallId, f: Failure) {
    match f
    case CouldNotSend => step == Sent(c, false)
    case ChannelClosed => step == SeeClosed(c)
    case TimedOut => step == TimeOut(c)
  }

  predicate HasFailure(steps: seq<Step>, c: CallId, f: Failure) {
    exists i :: 0 <= i < |steps| && IsFailure(steps[i], c, f)
  }

  lemma FailureByStep(s: State, step: Step, c: CallId, f: Failure)
    requires Enabled(s, step)
    ensures FailureOf(After(s, step), c) == Some(f) <==> FailureOf(s, c) == Some(f) || IsFailure(step, c, f)
  { }

  lemma HasFailureOfMore(step: Step, rest: seq<Step>, c: CallId, f: Failure)
    ensures HasFailure([step] + rest, c, f) <==> IsFailure(step, c, f) || HasFailure(rest, c, f)
  {
    hide IsFailure;
    var all := [step] + rest;
    assert all[0] == step;
    if HasFailure(rest, c, f) {
      var i :| 0 <= i < |rest| && IsFailure(rest[i], c, f);
      assert all[i + 1] == rest[i];
    }
  }

  lemma {:induction false} FailureInRun(s: State, steps: seq<Step>, c: CallId, f: Failure)
    requires Possible(s, steps)
    ensures FailureOf(Continue(s, steps), c) == Some(f) <==> FailureOf(s, c) == Some(f) || HasFailure(steps, c, f)
    decreases |steps|
  {
    hide Enabled, After, HasFailure, FailureOf, IsFailure;
    if steps == [] {
      NoFailureYet(c, f);
    } else {
      assert steps == [steps[0]] + steps[1..];
      FailureByStep(s, steps[0], c, f);
      FailureInRun(After(s, steps[0]), steps[1..], c, f);
      HasFailureOfMore(steps[0], steps[1..], c, f);
    }
  }

  lemma NoFailureYet(c: CallId, f: Failure)
    ensures !HasFailure([], c, f)
  { }

  /** In every run a call fails for what befell it: its send failed, its channel closed, or its time ran out. */
  lemma FailureTellsWhy(steps: seq<Step>, c: CallId, f: Failure)
    requires Possible(START, steps)
    ensures FailureOf(Continue(START, steps), c) == Some(f) <==> HasFailure(steps, c, f)
  {
    hide Possible, Continue, HasFailure;
    FailureInRun(START, steps, c, f);
  }

  /** The channel of a call that is sending or waiting is closed only by the reader's exit. */
  ghost predicate ClosedByExit(s: State) {
    forall c | c in s.calls && (s.calls[c].phase.Sending? || s.calls[c].phase.Waiting?) && s.calls[c].channel.Closed? ::
      s.readerGone
  }

  lemma StepKeepsClosedByExit(s: State, step: Step)
    requires Inv(s) && ClosedByExit(s) && Enabled(s, step)
    ensures ClosedByExit(After(s, step)) && (After(s, step).readerGone <==> s.readerGone || step.ReaderExits?)
  { }

  lemma {:induction false} ClosedMeansExit(s: State, steps: seq<Step>)
    requires Inv(s) && ClosedByExit(s) && !s.readerGone && Possible(s, steps)
    requires ReaderExits !in steps
    ensures ClosedByExit(Continue(s, steps)) && !Continue(s, steps).readerGone
    decreases |steps|
  {
    hide Inv, ClosedByExit, Enabled, After;
    if steps != [] {
      StepKeeps(s, steps[0]);
      StepKeepsClosedByExit(s, steps[0]);
      assert steps[0] in steps;
      ClosedMeansExit(After(s, steps[0]), steps[1..]);
    }
  }

  /** While the reader lives, no waiting call finds its channel closed. */
  lemma ChannelClosesOnlyByExit(steps: seq<Step>, c: CallId)
    requires Possible(START, steps) && Enabled(Continue(START, steps), SeeClosed(c))
    ensures ReaderExits in steps
  {
    hide Possible, Continue;
    if ReaderExits !in steps { ClosedMeansExit(START, steps); }
  }
}

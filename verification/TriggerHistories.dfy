/**
 What a whole run does to one trigger whose kind never changes, however often its task is re-added,
 rerolled or rebuilt.
 */
module TriggerHistories {
  import opened Options
  import opened Zones
  import opened CronLexer
  import opened Triggers
  import opened Evaluator
  import opened Occurrences
  import opened IntervalAndCron
  import opened FuzzyWindows
  import opened Recurrence
  import opened Queues
  import opened SchedulerModel
  import opened SchedulerSteps
  import opened SchedulerRuns

  /** `at` is an occurrence the kind can answer when asked at `asked`. */
  ghost predicate Made(env: Env, kind: TriggerKind, asked: int, at: int) {
    exists rolls :: Next(env, kind, asked, rolls) == Some(at)
  }

  predicate FiredBy(v: TriggerEvent, id: TaskId, trigger: TriggerId) {
    v.task == id && v.trigger == Some(trigger)
  }

  /** `at` was asked for no earlier than any of the trigger's events in `sent`. */
  ghost predicate MadeSince(env: Env, kind: TriggerKind, id: TaskId, trigger: TriggerId, sent: seq<TriggerEvent>,
      at: int) {
    exists asked :: Made(env, kind, asked, at) && forall v | v in sent
        && FiredBy(v, id, trigger) :: v.scheduledAt <= asked
  }

  /** Wherever the trigger occurs in the task, it has this kind. */
  ghost predicate KindIn(task: Task, trigger: TriggerId, kind: TriggerKind) {
    forall tr | tr in task.triggers && tr.id == trigger :: tr.kind == kind
  }

  ghost predicate KeepsKind(turn: Turn, id: TaskId, trigger: TriggerId, kind: TriggerKind) {
    turn.command.AddTask? && turn.command.added.id == id ==> KindIn(turn.command.added, trigger, kind)
  }

  /** No turn of the run gives the trigger another kind. */
  ghost predicate KindIsStable(turns: seq<Turn>, id: TaskId, trigger: TriggerId, kind: TriggerKind) {
    forall i | 0 <= i < |turns| :: KeepsKind(turns[i], id, trigger, kind)
  }

  ghost predicate EventsMade(env: Env, kind: TriggerKind, id: TaskId, trigger: TriggerId, sent: seq<TriggerEvent>) {
    forall i | 0 <= i < |sent| && FiredBy(sent[i], id, trigger) ::
      MadeSince(env, kind, id, trigger, sent[..i], sent[i].scheduledAt)
  }

  ghost predicate EntriesMade(env: Env, kind: TriggerKind, id: TaskId, trigger: TriggerId, s: State) {
    forall at | Entry(id, trigger, at) in s.live :: MadeSince(env, kind, id, trigger, s.sent, at)
  }

  ghost predicate History(env: Env, kind: TriggerKind, id: TaskId, trigger: TriggerId, s: State) {
    && (id in s.tasks ==> KindIn(s.tasks[id], trigger, kind))
    && EntriesMade(env, kind, id, trigger, s)
    && EventsMade(env, kind, id, trigger, s.sent)
  }

  // ---------- where a step's entries come from ----------

  lemma YieldIsMade(env: Env, kind: TriggerKind, task: Task, trigger: TriggerId, now: int, dice: Dice, at: int)
    requires DistinctTriggers(task) && KindIn(task, trigger, kind)
    requires Entry(task.id, trigger, at) in Fresh(env, task, now, dice)
    ensures Made(env, kind, now, at)
  {
    hide Fresh, Next, DistinctTriggers;
    var e := Entry(task.id, trigger, at);
    FreshCounts(env, task, now, dice, e);
    var tr :| tr in task.triggers && Yields(env, task.id, tr, now, dice, e);
    assert Next(env, kind, now, dice(task.id, tr.id)) == Some(at);
  }

  lemma AgainIsMade(env: Env, kind: TriggerKind, tasks: map<TaskId, Task>, e: Entry, now: int, dice: Dice, at: int)
    requires e.task in tasks ==> KindIn(tasks[e.task], e.trigger, kind)
    requires Entry(e.task, e.trigger, at) in Again(env, tasks, e, now, dice)
    ensures Made(env, kind, now, at)
  {
    hide Next, EntryFor;
    var tr := FindTrigger(tasks[e.task].triggers, e.trigger).value;
    EntryForCounts(env, e.task, tr, now, dice, Entry(e.task, e.trigger, at));
    assert Next(env, kind, now, dice(e.task, tr.id)) == Some(at);
  }

  lemma RerollIsMade(env: Env, kind: TriggerKind, s: State, id: TaskId, trigger: TriggerId, now: int, dice: Dice,
      at: int)
    requires id in s.tasks ==> KindIn(s.tasks[id], trigger, kind)
    requires RerollAnswer(env, s, id, trigger, now, dice) == Ok(Some(at))
    ensures Made(env, kind, now, at)
  {
    hide Next;
    var tr := RerollTarget(s, id, trigger).value;
    assert tr.kind == kind;
    assert Next(env, kind, now, dice(id, trigger)) == Some(at);
  }

  /** After any step an entry of the trigger was there before or was made in that step. */
  lemma EntryIsOldOrMade(env: Env, kind: TriggerKind, id: TaskId, trigger: TriggerId, s: State, turn: Turn, at: int)
    requires Inv(env, s, turn.now) && Allowed(s, turn)
    requires id in s.tasks ==> KindIn(s.tasks[id], trigger, kind)
    requires KeepsKind(turn, id, trigger, kind)
    requires Entry(id, trigger, at) in Step(env, s, turn).live
    ensures Entry(id, trigger, at) in s.live || Made(env, kind, turn.now, at)
  {
    hide Fresh, FreshAll, Again, RerollAnswer, Made, KindIn, DistinctTriggers, Landed, OfTask, OfTrigger, WithoutTask,
        First;
    hide OnePerTrigger, Agrees, Covered, Ordered, Ahead, PastEvents, Rerolled;
    match turn.command {
      case AddTask(task) =>
        if Entry(id, trigger, at) in Fresh(env, task, turn.now, turn.dice) {
          YieldIsMade(env, kind, task, trigger, turn.now, turn.dice, at);
        }
      case RemoveTask(_) =>
      case TriggerNow(_) =>
      case Reroll(i, t) =>
        if RerollAnswer(env, s, i, t, turn.now, turn.dice).Ok? {
          RerolledEntries(env, s, i, t, turn.now, turn.dice, Entry(id, trigger, at));
          if i == id && t == trigger {
            RerollIsMade(env, kind, s, id, trigger, turn.now, turn.dice, at);
          }
        }
      case Timer =>
        var e := First(s.live);
        if Entry(id, trigger, at) in Again(env, s.tasks, e, turn.now, turn.dice) {
          AgainIsBatch(env, s.tasks, e, turn.now, turn.dice);
          AgainIsMade(env, kind, s.tasks, e, turn.now, turn.dice, at);
        }
      case Tick(mono) =>
        if ClockJumped(s.lastWall, turn.now, mono) {
          YieldIsMade(env, kind, s.tasks[id], trigger, turn.now, turn.dice, at);
        }
    }
  }

  // ---------- the history over a run ----------

  lemma MadeNow(env: Env, kind: TriggerKind, id: TaskId, trigger: TriggerId, sent: seq<TriggerEvent>, now: int, at: int)
    requires Made(env, kind, now, at) && PastEvents(sent, now)
    ensures MadeSince(env, kind, id, trigger, sent, at)
  {
    hide Made;
    assert forall v | v in sent && FiredBy(v, id, trigger) :: IsTimed(v);
  }

  lemma SilentStep(env: Env, kind: TriggerKind, id: TaskId, trigger: TriggerId, sent: seq<TriggerEvent>,
      v: TriggerEvent, at: int)
    requires MadeSince(env, kind, id, trigger, sent, at) && !FiredBy(v, id, trigger)
    ensures MadeSince(env, kind, id, trigger, sent + [v], at)
  {
    hide Made;
    var asked :| Made(env, kind, asked, at) && forall w | w in sent
        && FiredBy(w, id, trigger) :: w.scheduledAt <= asked;
    assert forall w | w in sent + [v] && FiredBy(w, id, trigger) :: w in sent;
  }

  lemma EventsMadeOneMore(env: Env, kind: TriggerKind, id: TaskId, trigger: TriggerId, sent: seq<TriggerEvent>,
      v: TriggerEvent)
    requires EventsMade(env, kind, id, trigger, sent)
    requires FiredBy(v, id, trigger) ==> MadeSince(env, kind, id, trigger, sent, v.scheduledAt)
    ensures EventsMade(env, kind, id, trigger, sent + [v])
  {
    hide MadeSince;
    var more := sent + [v];
    forall i | 0 <= i < |more| && FiredBy(more[i], id, trigger)
      ensures MadeSince(env, kind, id, trigger, more[..i], more[i].scheduledAt)
    {
      assert more[..i] == sent[..i];
      if i == |sent| { assert sent[..i] == sent; }
    }
  }

  /** The events a turn sends: none, a manual one, or the first entry's. */
  lemma SentByStep(env: Env, s: State, turn: Turn)
    requires Keyed(s.tasks) && Allowed(s, turn)
    ensures match turn.command
            case TriggerNow(id) => Step(env, s, turn).sent == s.sent + [TriggerEvent(id, None, turn.now)]
            case Timer => Step(env, s, turn).sent == s.sent + [EventOf(First(s.live))]
            case _ => Step(env, s, turn).sent == s.sent
  {
    hide Fresh, FreshAll, Again, RerollAnswer, Rerolled, DistinctTriggers;
  }

  lemma FiredLeavesNoTwin(env: Env, s: State, turn: Turn, at: int)
    requires OnePerTrigger(s.live) && turn.command.Timer? && s.live != multiset{} && Keyed(s.tasks)
    requires var e := First(s.live); Entry(e.task, e.trigger, at) in Step(env, s, turn).live
    ensures var e := First(s.live); Entry(e.task, e.trigger, at) in Again(env, s.tasks, e, turn.now, turn.dice)
  {
    hide Again;
    var e := First(s.live);
    var f := Entry(e.task, e.trigger, at);
    if f in s.live { assert SameTrigger(e, f); }
  }

  lemma StepKeepsHistory(env: Env, kind: TriggerKind, id: TaskId, trigger: TriggerId, s: State, turn: Turn)
    requires Inv(env, s, turn.now) && Allowed(s, turn)
    requires History(env, kind, id, trigger, s) && KeepsKind(turn, id, trigger, kind)
    ensures History(env, kind, id, trigger, Step(env, s, turn))
  {
    hide Made, MadeSince, KindIn, EventsMade, Agrees, Covered, Ordered, Ahead, OnePerTrigger, Step, PastEvents,
        GoodTasks;
    InvIsKeyed(env, s, turn.now);
    SentByStep(env, s, turn);
    StepKeeps(env, s, turn);
    var s' := Step(env, s, turn);
    StepKeepsKind(env, kind, id, trigger, s, turn);
    forall at | Entry(id, trigger, at) in s'.live ensures MadeSince(env, kind, id, trigger, s'.sent, at) {
      EntryIsOldOrMade(env, kind, id, trigger, s, turn, at);
      if Made(env, kind, turn.now, at) {
        MadeNow(env, kind, id, trigger, s'.sent, turn.now, at);
      } else if turn.command.Timer? {
        var e := First(s.live);
        if FiredBy(EventOf(e), id, trigger) {
          FiredLeavesNoTwin(env, s, turn, at);
          KindOfFired(env, kind, s, turn, at);
        } else {
          SilentStep(env, kind, id, trigger, s.sent, EventOf(e), at);
        }
      } else if turn.command.TriggerNow? {
        SilentStep(env, kind, id, trigger, s.sent, TriggerEvent(turn.command.triggered, None, turn.now), at);
      }
    }
    if turn.command.Timer? {
      var e := First(s.live);
      assert FiredBy(EventOf(e), id, trigger) ==> e == Entry(id, trigger, e.at);
      EventsMadeOneMore(env, kind, id, trigger, s.sent, EventOf(e));
    } else if turn.command.TriggerNow? {
      EventsMadeOneMore(env, kind, id, trigger, s.sent, TriggerEvent(turn.command.triggered, None, turn.now));
    }
  }

  lemma KindOfFired(env: Env, kind: TriggerKind, s: State, turn: Turn, at: int)
    requires s.live != multiset{}
    requires var e := First(s.live); e.task in s.tasks ==> KindIn(s.tasks[e.task], e.trigger, kind)
    requires var e := First(s.live); Entry(e.task, e.trigger, at) in Again(env, s.tasks, e, turn.now, turn.dice)
    ensures Made(env, kind, turn.now, at)
  {
    hide Again, Made, KindIn;
    AgainIsMade(env, kind, s.tasks, First(s.live), turn.now, turn.dice, at);
  }

  lemma StepKeepsKind(env: Env, kind: TriggerKind, id: TaskId, trigger: TriggerId, s: State, turn: Turn)
    requires Keyed(s.tasks) && KeepsKind(turn, id, trigger, kind)
    requires id in s.tasks ==> KindIn(s.tasks[id], trigger, kind)
    ensures id in Step(env, s, turn).tasks ==> KindIn(Step(env, s, turn).tasks[id], trigger, kind)
  {
    hide Fresh, FreshAll, Again, RerollAnswer, Rerolled, KindIn;
  }

  /** Over a whole run: each entry and event of the trigger was asked for no earlier than its previous events. */
  lemma {:induction false} RunKeepsHistory(env: Env, start: int, turns: seq<Turn>, id: TaskId, trigger: TriggerId,
      kind: TriggerKind)
    requires IsRun(env, start, turns) && KindIsStable(turns, id, trigger, kind)
    ensures History(env, kind, id, trigger, Run(env, start, turns))
  {
    hide Inv, Step, Allowed, History, KeepsKind;
    if turns == [] {
      EmptyHistory(env, kind, id, trigger, start);
    } else {
      var before, turn := turns[..|turns| - 1], turns[|turns| - 1];
      RunKeepsHistory(env, start, before, id, trigger, kind);
      RunKeeps(env, start, before);
      InvLater(env, Run(env, start, before), ClockOf(start, before), turn.now);
      StepKeepsHistory(env, kind, id, trigger, Run(env, start, before), turn);
    }
  }

  lemma EmptyHistory(env: Env, kind: TriggerKind, id: TaskId, trigger: TriggerId, start: int)
    ensures History(env, kind, id, trigger, State(multiset{}, map[], start, []))
  { }

  /** The j-th event of a run was asked for at some instant, no earlier than the trigger's earlier i-th event. */
  lemma EventWasMade(env: Env, start: int, turns: seq<Turn>, id: TaskId, trigger: TriggerId, kind: TriggerKind, j: nat)
    returns (asked: int)
    requires IsRun(env, start, turns) && KindIsStable(turns, id, trigger, kind)
    requires j < |Run(env, start, turns).sent| && FiredBy(Run(env, start, turns).sent[j], id, trigger)
    ensures Made(env, kind, asked, Run(env, start, turns).sent[j].scheduledAt)
    ensures forall i | 0 <= i < j && FiredBy(Run(env, start, turns).sent[i], id, trigger) ::
              Run(env, start, turns).sent[i].scheduledAt <= asked
  {
    hide Run, IsRun, Made, KindIsStable;
    RunKeepsHistory(env, start, turns, id, trigger, kind);
    var sent := Run(env, start, turns).sent;
    assert MadeSince(env, kind, id, trigger, sent[..j], sent[j].scheduledAt);
    asked :| Made(env, kind, asked, sent[j].scheduledAt)
          && forall v | v in sent[..j] && FiredBy(v, id, trigger) :: v.scheduledAt <= asked;
    forall i | 0 <= i < j && FiredBy(sent[i], id, trigger) ensures sent[i].scheduledAt <= asked {
      assert sent[..j][i] == sent[i] && sent[i] in sent[..j];
    }
  }

  // ---------- the turn an event comes from ----------

  /** Some turn of the run asked for `at`. */
  ghost predicate MadeInTurn(env: Env, kind: TriggerKind, turns: seq<Turn>, at: int) {
    exists k :: 0 <= k < |turns| && Made(env, kind, turns[k].now, at)
  }

  lemma MadeInMore(env: Env, kind: TriggerKind, turns: seq<Turn>, turn: Turn, at: int)
    requires MadeInTurn(env, kind, turns, at) || Made(env, kind, turn.now, at)
    ensures MadeInTurn(env, kind, turns + [turn], at)
  {
    hide Made;
    var more := turns + [turn];
    if MadeInTurn(env, kind, turns, at) {
      var k :| 0 <= k < |turns| && Made(env, kind, turns[k].now, at);
      assert Made(env, kind, more[k].now, at);
    } else {
      assert Made(env, kind, more[|turns|].now, at);
    }
  }

  /** Every entry and event of the trigger was asked for by a turn of the run, at that turn's instant. */
  lemma {:induction false} EventsAreMadeInTurns(env: Env, start: int, turns: seq<Turn>, id: TaskId, trigger: TriggerId,
                                                kind: TriggerKind)
    requires IsRun(env, start, turns) && KindIsStable(turns, id, trigger, kind)
    ensures forall at | Entry(id, trigger, at) in Run(env, start, turns).live :: MadeInTurn(env, kind, turns, at)
    ensures forall v | v in Run(env, start, turns).sent && FiredBy(v, id, trigger) ::
              MadeInTurn(env, kind, turns, v.scheduledAt)
  {
    hide Inv, Step, Allowed, Made, MadeInTurn, KeepsKind;
    if turns != [] {
      var before, turn := turns[..|turns| - 1], turns[|turns| - 1];
      assert turns == before + [turn];
      var s := Run(env, start, before);
      assert forall i | 0 <= i < |before| :: KeepsKind(turns[i], id, trigger, kind) && before[i] == turns[i];
      EventsAreMadeInTurns(env, start, before, id, trigger, kind);
      RunKeeps(env, start, before);
      RunKeepsHistory(env, start, before, id, trigger, kind);
      InvLater(env, s, ClockOf(start, before), turn.now);
      InvIsKeyed(env, s, turn.now);
      HistoryHasKind(env, kind, id, trigger, s);
      forall at | Entry(id, trigger, at) in Step(env, s, turn).live ensures MadeInTurn(env, kind, turns, at) {
        EntryIsOldOrMade(env, kind, id, trigger, s, turn, at);
        MadeInMore(env, kind, before, turn, at);
      }
      forall v | v in Step(env, s, turn).sent && FiredBy(v, id, trigger)
        ensures MadeInTurn(env, kind, turns, v.scheduledAt)
      {
        EventIsOldOrQueued(env, s, turn, v);
        if v !in s.sent { assert Entry(id, trigger, v.scheduledAt) in s.live; }
        MadeInMore(env, kind, before, turn, v.scheduledAt);
      }
    }
  }

  lemma HistoryHasKind(env: Env, kind: TriggerKind, id: TaskId, trigger: TriggerId, s: State)
    requires History(env, kind, id, trigger, s)
    ensures id in s.tasks ==> KindIn(s.tasks[id], trigger, kind)
  { }

  /** A timed event of a turn was queued before it. */
  lemma EventIsOldOrQueued(env: Env, s: State, turn: Turn, v: TriggerEvent)
    requires Keyed(s.tasks) && Allowed(s, turn) && v in Step(env, s, turn).sent && v.trigger.Some?
    ensures v in s.sent || Entry(v.task, v.trigger.value, v.scheduledAt) in s.live
  {
    hide Step, Allowed;
    SentByStep(env, s, turn);
    if turn.command.Timer? { TimerHasEntry(s, turn); }
  }

  lemma TimerHasEntry(s: State, turn: Turn)
    requires Allowed(s, turn) && turn.command.Timer?
    ensures s.live != multiset{}
  { }

  // ---------- consequences for each kind ----------

  /**
   An interval without a start: each of its events lies the interval's length after the
   instant of a turn, and any two are at least that length apart.
   */
  lemma UnanchoredEventsAreApart(env: Env, start: int, turns: seq<Turn>, id: TaskId, trigger: TriggerId, secs: nat)
    requires IsRun(env, start, turns) && KindIsStable(turns, id, trigger, Interval(secs, None))
    ensures forall v | v in Run(env, start, turns).sent && FiredBy(v, id, trigger) ::
              exists k :: 0 <= k < |turns| && v.scheduledAt == turns[k].now + secs * 1_000_000_000
    ensures var sent := Run(env, start, turns).sent;
            forall i, j | 0 <= i < j < |sent| && FiredBy(sent[i], id, trigger) && FiredBy(sent[j], id, trigger) ::
              sent[j].scheduledAt - sent[i].scheduledAt >= secs * 1_000_000_000
  {
    hide Run, IsRun, KindIsStable, Made;
    var kind := Interval(secs, None);
    var sent := Run(env, start, turns).sent;
    EventsAreMadeInTurns(env, start, turns, id, trigger, kind);
    forall v | v in sent && FiredBy(v, id, trigger)
      ensures exists k :: 0 <= k < |turns| && v.scheduledAt == turns[k].now + secs * 1_000_000_000
    {
      var k :| 0 <= k < |turns| && Made(env, kind, turns[k].now, v.scheduledAt);
      MadeByInterval(env, secs, turns[k].now, v.scheduledAt);
    }
    forall i, j | 0 <= i < j < |sent| && FiredBy(sent[i], id, trigger) && FiredBy(sent[j], id, trigger)
      ensures sent[j].scheduledAt - sent[i].scheduledAt >= secs * 1_000_000_000
    {
      var asked := EventWasMade(env, start, turns, id, trigger, kind, j);
      MadeByInterval(env, secs, asked, sent[j].scheduledAt);
    }
  }

  lemma MadeByInterval(env: Env, secs: nat, asked: int, at: int)
    requires Made(env, Interval(secs, None), asked, at)
    ensures 0 < secs && at == asked + secs * 1_000_000_000
  {
    hide NextInterval;
    var rolls :| Next(env, Interval(secs, None), asked, rolls) == Some(at);
    if secs == 0 { NoInterval(None, asked); } else { UnanchoredIntervalWaits(env, secs, asked, rolls); }
  }

  /** Kinds that are driven by events, or describe no time at all. */
  ghost predicate IsSilent(env: Env, kind: TriggerKind) {
    match kind
    case Network => true
    case AgentStarted => true
    case Interval(secs, _) => secs == 0
    case Weekly(days, _, _) => days == []
    case Fuzzy(_, start, end, _) => end <= start
    case Cron(fields, _) => |fields| != 5 || exists i :: 0 <= i < 5 && !IsStandardField(fields[i], i == 3, i == 4)
    case Once(_) => false
    case Daily(_, _) => false
  }

  /** In no run does such a trigger fire by itself. */
  lemma SilentKindsNeverFire(env: Env, start: int, turns: seq<Turn>, id: TaskId, trigger: TriggerId, kind: TriggerKind)
    requires IsRun(env, start, turns) && KindIsStable(turns, id, trigger, kind) && IsSilent(env, kind)
    ensures forall v | v in Run(env, start, turns).sent :: !FiredBy(v, id, trigger)
    ensures forall at :: Entry(id, trigger, at) !in Run(env, start, turns).live
  {
    hide Run, IsRun, KindIsStable, Made, IsSilent;
    EventsAreMadeInTurns(env, start, turns, id, trigger, kind);
    forall k, at | 0 <= k < |turns| ensures !Made(env, kind, turns[k].now, at) {
      SilentMakesNothing(env, kind, turns[k].now, at);
    }
  }

  lemma SilentMakesNothing(env: Env, kind: TriggerKind, asked: int, at: int)
    requires IsSilent(env, kind)
    ensures !Made(env, kind, asked, at)
  {
    hide FirstOn, FirstPick, CronFrom, Local, DateOf, IsStandardField;
    if kind.Interval? { NoInterval(kind.startAt, asked); }
  }

  /** An anchored interval only ever fires on its grid, however late the fires are. */
  lemma IntervalStaysOnGrid(env: Env, start: int, turns: seq<Turn>, id: TaskId, trigger: TriggerId,
                            secs: nat, anchor: int, j: nat) returns (k: nat)
    requires IsRun(env, start, turns) && KindIsStable(turns, id, trigger, Interval(secs, Some(anchor)))
    requires j < |Run(env, start, turns).sent| && FiredBy(Run(env, start, turns).sent[j], id, trigger)
    ensures Run(env, start, turns).sent[j].scheduledAt == GridPoint(anchor, secs, k)
  {
    hide Run, IsRun, NextInterval, KindIsStable;
    var asked := EventWasMade(env, start, turns, id, trigger, Interval(secs, Some(anchor)), j);
    if secs == 0 { NoInterval(Some(anchor), asked); }
    k := IntervalIsLeastGridPoint(secs, anchor, asked);
  }

  /** A one-shot trigger fires at most once, even if its task is added again. */
  lemma OnceFiresOnce(env: Env, start: int, turns: seq<Turn>, id: TaskId, trigger: TriggerId, fireAt: int, i: nat,
      j: nat)
    requires IsRun(env, start, turns) && KindIsStable(turns, id, trigger, Once(fireAt))
    requires i < |Run(env, start, turns).sent| && FiredBy(Run(env, start, turns).sent[i], id, trigger)
    requires j < |Run(env, start, turns).sent| && FiredBy(Run(env, start, turns).sent[j], id, trigger)
    ensures i == j && Run(env, start, turns).sent[j].scheduledAt == fireAt
  {
    hide Run, IsRun, KindIsStable;
    var p := EventWasMade(env, start, turns, id, trigger, Once(fireAt), i);
    var q := EventWasMade(env, start, turns, id, trigger, Once(fireAt), j);
    if i < j { TimedEventsInOrder(env, start, turns, i, j); }
    if j < i { TimedEventsInOrder(env, start, turns, j, i); }
  }

  lemma MadePick(env: Env, period: FuzzyPeriod, windowStart: TimeOfDay, windowEnd: TimeOfDay, tz: string, asked: int,
      at: int)
    returns (date: int)
    requires Made(env, Fuzzy(period, windowStart, windowEnd, tz), asked, at)
    ensures windowStart < windowEnd && PickedFor(ZoneNamed(env, tz), period, windowStart, windowEnd, asked, date, at)
  {
    hide FirstPick, PickedFor, Local;
    var z := ZoneNamed(env, tz);
    var rolls :| Next(env, Fuzzy(period, windowStart, windowEnd, tz), asked, rolls) == Some(at);
    date := PickIsForSomeDate(z, period, windowStart, windowEnd, asked, rolls, DateOf(Local(z, asked)), 0, FUZZY_DATES);
  }

  /** `t` is on a matching date, not before its window, and before the window's end unless it overshoots a gap. */
  ghost predicate InWindow(z: Zone, period: FuzzyPeriod, windowStart: TimeOfDay, windowEnd: TimeOfDay, t: int) {
    var date, time := DateOf(Local(z, t)), TimeOf(Local(z, t));
    && period.MatchesWeekday(WeekdayOf(date)) && windowStart <= time
    && (time >= windowEnd <==> PickOvershoots(z, date, windowStart, windowEnd, t))
  }

  lemma PickIsInWindow(z: Zone, period: FuzzyPeriod, windowStart: TimeOfDay, windowEnd: TimeOfDay,
                       asked: int, date: int, t: int)
    requires Calm(z) && PickedFor(z, period, windowStart, windowEnd, asked, date, t)
    ensures InWindow(z, period, windowStart, windowEnd, t) && DateOf(Local(z, t)) == date
    ensures date * DAY + windowStart <= Local(z, t) && period.MatchesWeekday(WeekdayOf(date))
    ensures GapFree(z) ==> TimeOf(Local(z, t)) < windowEnd
  {
    hide Calm, Local, PickOvershoots, GapFree, StandsFor, DateOf, TimeOf, WeekdayOf;
    PickLandsInWindow(z, period, windowStart, windowEnd, asked, date, t);
    if GapFree(z) { GapFreeNeverOvershoots(z, date, windowStart, windowEnd, t); }
  }

  /** Every event of a fuzzy trigger is in a window, within its end in a zone without gaps. */
  lemma FuzzyFiresInWindow(env: Env, start: int, turns: seq<Turn>, id: TaskId, trigger: TriggerId,
                           period: FuzzyPeriod, windowStart: TimeOfDay, windowEnd: TimeOfDay, tz: string, i: nat)
    requires Calm(ZoneNamed(env, tz))
    requires IsRun(env, start, turns) && KindIsStable(turns, id, trigger, Fuzzy(period, windowStart, windowEnd, tz))
    requires i < |Run(env, start, turns).sent| && FiredBy(Run(env, start, turns).sent[i], id, trigger)
    ensures var z, t := ZoneNamed(env, tz), Run(env, start, turns).sent[i].scheduledAt;
            InWindow(z, period, windowStart, windowEnd, t) && (GapFree(z) ==> TimeOf(Local(z, t)) < windowEnd)
  {
    hide Run, IsRun, Calm, Local, InWindow, Made, KindIsStable, PickedFor, GapFree;
    var t := Run(env, start, turns).sent[i].scheduledAt;
    var asked := EventWasMade(env, start, turns, id, trigger, Fuzzy(period, windowStart, windowEnd, tz), i);
    var date := MadePick(env, period, windowStart, windowEnd, tz, asked, t);
    PickIsInWindow(ZoneNamed(env, tz), period, windowStart, windowEnd, asked, date, t);
  }

  /**
   Fuzzy: over a whole run the events of a trigger fall on strictly later and later
   windows, provided no clock change repeats the start of a matching window.
   */
  lemma FuzzyFiresOncePerWindow(env: Env, start: int, turns: seq<Turn>, id: TaskId, trigger: TriggerId,
                                period: FuzzyPeriod, windowStart: TimeOfDay, windowEnd: TimeOfDay, tz: string,
                                i: nat, j: nat)
    requires Calm(ZoneNamed(env, tz)) && WindowStartKept(ZoneNamed(env, tz), period, windowStart)
    requires IsRun(env, start, turns) && KindIsStable(turns, id, trigger, Fuzzy(period, windowStart, windowEnd, tz))
    requires var sent := Run(env, start, turns).sent;
             i < j < |sent| && FiredBy(sent[i], id, trigger) && FiredBy(sent[j], id, trigger)
    ensures var z, sent := ZoneNamed(env, tz), Run(env, start, turns).sent;
            var first, second := sent[i].scheduledAt, sent[j].scheduledAt;
            && DateOf(Local(z, first)) < DateOf(Local(z, second))
            && InWindow(z, period, windowStart, windowEnd, first)
            && InWindow(z, period, windowStart, windowEnd, second)
  {
    hide Run, IsRun, Calm, WindowStartKept, Local, DateOf, WeekdayOf, Made, StandsFor, KindIsStable, InWindow, GapFree;
    var z := ZoneNamed(env, tz);
    var kind := Fuzzy(period, windowStart, windowEnd, tz);
    var t, u := Run(env, start, turns).sent[i].scheduledAt, Run(env, start, turns).sent[j].scheduledAt;
    var p := EventWasMade(env, start, turns, id, trigger, kind, i);
    var q := EventWasMade(env, start, turns, id, trigger, kind, j);
    var d := MadePick(env, period, windowStart, windowEnd, tz, p, t);
    var e := MadePick(env, period, windowStart, windowEnd, tz, q, u);
    PickIsInWindow(z, period, windowStart, windowEnd, p, d, t);
    PickIsInWindow(z, period, windowStart, windowEnd, q, e, u);
    NextWindowIsLater(z, period, windowStart, windowEnd, d, t, q, e, u);
  }
}

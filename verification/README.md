# Verified model of easyJob's scheduling core

easyJob is a local task scheduler: an agent process computes when triggers fire,
runs the tasks' actions and records every run; a desktop program talks to it over
local IPC. This project models the parts of it whose correctness depends on state
kept over time, and proves what they promise.

* **When a trigger fires next.** `Zones.dfy` models time zones as lists of UTC-offset
  changes and the lookup of wall-clock readings. `Evaluator.dfy` holds the evaluator: the
  specification functions and the search loops proved against them. `Occurrences.dfy`,
  `IntervalAndCron.dfy`, `FuzzyWindows.dfy` and `Recurrence.dfy` prove what the answers
  mean; `Calendar.dfy` ties day numbers, weekdays and a spring night to the civil calendar.
  `CronLexer.dfy` is the white list in front of the cron library, and
  `CronValidator.dfy` the desktop's validator that must agree with it.
* **The scheduler.** `ScheduleQueue.dfy` is the heap with lazy deletion, shown to behave
  as a multiset of live entries. `SchedulerModel.dfy` says what each turn of the loop does
  to those entries, the registry and the sent events; `Scheduler.dfy` has the loop's arms
  as methods proved to do that; `SchedulerSteps.dfy`, `SchedulerRuns.dfy`,
  `TaskTurns.dfy`, `EarlyTimers.dfy`, `TriggerHistories.dfy` and `FuzzyRuns.dfy` prove
  properties of whole runs; `LoneTriggers.dfy` builds concrete ones.
* **Executions.** `ExecutionManager.dfy` counts permits and slots, `ActionChain.dfy` runs
  actions, `RunStore.dfy` is the run table and `Rfc3339.dfy` the order of its time texts.
  `ExecutionProtocol.dfy` is the life of runs on both paths (dispatcher and manual
  trigger) as steps that interleave freely, with tasks deleted meanwhile and crashes;
  `ExecutionRuns.dfy` proves properties of whole runs and `ExecutionAgent.dfy` performs the
  steps on the shared manager and table.
* **Smaller cores.** `OutputReader.dfy` (capped process output), `EdgeDetection.dfy`,
  `MacNetwork.dfy` and `WindowsNetwork.dfy` (network reports), `IpcClient.dfy` (the table
  of pending replies).

Instants are integers (nanoseconds), dates are day numbers, ids are natural numbers in
their sort order. The wall clock, random numbers, the time zone database, the cron
library's search, database failures, process outcomes and probe results are parameters.
A few hypotheses recur:

* *The wall clock never goes back* and *the timer goes off with an entry due* are part of
  what a scheduler run is (`SchedulerRuns.IsRun`). The second is needed: a timer that
  sleeps on the monotonic clock can wake before a slower wall clock reaches the entry, and
  `EarlyTimers.RepeatsIffEarly` shows that exactly then an occurrence can fire twice.
* *Calm zone* (`Zones.Calm`): no gap is longer than two hours, and neither a gap with a
  quarter hour after it nor a repeated stretch crosses local midnight.
* The promise in `crates/scheduler/src/evaluator.rs:161-162` that each fuzzy window fires
  at most once is not kept when a clock change repeats a window's start and the first pick
  is fired inside the repeated stretch. `FuzzyRuns.FiresOnceIffStartKept` gives the exact
  condition over runs, and `FuzzyRuns.AutumnNightFiresTwice` a concrete zone.
* The comment in `crates/scheduler/src/evaluator.rs:54` speaks of shifting minute by
  minute; the code shifts by quarters of an hour, and so does the model.
* A manual trigger whose reply cannot be serialised would give its permit back and keep its
  slot, its row and its cancellation entry (`apps/agent/src/service.rs:777-781`). The type it
  serialises (`crates/domain/src/execution.rs:17-29`) gives no reason to expect this; the
  model keeps the branch because the code has it. `ExecutionRuns.PermitsAndSlotsConserved`
  and `ExecutionRuns.QuiescentIffNoLeak` hold without reserve for runs in which it is not
  taken, and say exactly what taking it changes.
* Deleting a task deletes its runs, Running ones included, while they go on
  (`migrations/20260911000000_init_schema.sql:39`, `crates/persistence/src/db.rs:13`). Such a
  run ends without a recorded status; `ExecutionRuns.FinalStatusInRuns` gives the exact
  condition.

`dafny verify dfyconfig.toml` checks the whole project.

## Model

| member | source | states |
|---|---|---|
| Zones.FromLocalIsExact | crates/scheduler/src/evaluator.rs:33-53 | Looking up a wall-clock reading reports exactly the instants at which the zone's clock shows it: none in a gap, one, or the two ends of a repeated reading |
| Zones.ReadingsRepeatAtMostOnce | crates/scheduler/src/evaluator.rs:42-52 | No reading stands for three instants, so the two-ended answer loses none |
| Zones.ReachedStaysReached | crates/scheduler/src/evaluator.rs:161-164 | A clock that is never set back across a reading never shows an earlier one after reaching it |
| Zones.DatesNeverGoBack | crates/scheduler/src/evaluator.rs:101-109 | In a calm zone the local date never goes back |
| Evaluator.ShiftOutOfGap | crates/scheduler/src/evaluator.rs:53-68 | The quarter-hour loop computes the recursive search over at most the given steps |
| Evaluator.ResolveCandidate | crates/scheduler/src/evaluator.rs:27-72 | The branches and the gap loop compute `Resolve` |
| Occurrences.ResolveIsLeast | crates/scheduler/src/evaluator.rs:25-72 | `Resolve` is the least instant strictly after `after` that the reading stands for (shown then, or shifted there out of a gap), and there is none exactly when it answers nothing |
| Occurrences.CalmReadings | crates/scheduler/src/evaluator.rs:53-68 | With gaps of at most two hours inside a day every reading stands for some instant, and only for instants of its own date not before it |
| Occurrences.AheadStandsAhead | crates/scheduler/src/evaluator.rs:33-68 | In a calm zone a reading the clock has not reached always resolves to an instant still ahead, through set-backs and gaps |
| Calendar.SpringNightMovesOn | crates/scheduler/src/evaluator.rs:53-68 | A concrete night that skips 02:00 to 03:00: a time of 02:50 is taken at 03:05, by quarter hours |
| Calendar.LongGapDropsTheNight | crates/scheduler/src/evaluator.rs:56-69 | A concrete night that skips three hours: a time more than two hours before the gap's end is dropped |
| Calendar.UnknownZoneIsUtc | crates/scheduler/src/evaluator.rs:100 | An unknown zone name shows UTC |
| Calendar.WeekdayIsDetermined | crates/scheduler/src/evaluator.rs:125 | Weekdays are the only seven-day cycle with a Thursday on day 0 |
| Calendar.CivilDays | crates/scheduler/src/evaluator.rs:125 | Day numbers and weekdays of civil dates: 1970-01-01 is day 0, 2024-02-29 a Thursday, 2026-09-19 a Saturday |
| Calendar.PeriodsOfAWeek | crates/domain/src/trigger.rs:51-60 | From a Monday on, working days are the first five and the weekend the last two, and a day list matches its days |
| Evaluator.NextDaily | crates/scheduler/src/evaluator.rs:99-111 | The loop over four dates computes the date search over all weekdays |
| Evaluator.NextWeekly | crates/scheduler/src/evaluator.rs:112-135 | The loop over fourteen dates computes the date search, and an empty day list answers nothing |
| Occurrences.DailyIsLeastOccurrence | crates/scheduler/src/evaluator.rs:99-111 | Daily in a calm zone always answers the least occurrence strictly after `after` over all dates, today or tomorrow: the cap of four never cuts the search |
| Occurrences.WeeklyIsLeastOccurrence | crates/scheduler/src/evaluator.rs:112-135 | Weekly with some day always answers the least occurrence over all dates, within eight dates: the cap of fourteen never cuts the search |
| Recurrence.DatesAsked | crates/scheduler/src/evaluator.rs:99-135 | In any zone daily finds nothing if and only if none of today and the next three dates resolves, weekly none of fourteen dates |
| IntervalAndCron.IntervalIsLeastGridPoint | crates/scheduler/src/evaluator.rs:83-98 | An anchored interval answers the least `base + k * interval` strictly after `after`, sub-second instants included, with k = 0 exactly before the base |
| IntervalAndCron.UnanchoredIntervalWaits | crates/scheduler/src/evaluator.rs:83-98 | An interval without a start answers exactly its length after the instant asked |
| Evaluator.CronNextOccurrence | crates/scheduler/src/evaluator.rs:277-302 | The re-anchoring loop computes the recursive search of 240 rounds |
| IntervalAndCron.CronIsLeastMatch | crates/scheduler/src/evaluator.rs:255-302 | Given a matcher that finds the next matching local minute from anchors up to `after`, and repeats of at most two hours, the search ends within 121 rounds with the least first showing of a matching minute strictly after `after` |
| IntervalAndCron.InvalidAnchorsAreSteppedOver | crates/scheduler/src/evaluator.rs:293-300 | Anchors the library calls invalid are stepped over hour by hour; the first find after them is the answer, and any other error ends the search |
| Recurrence.CronAsksTwoHundredForty | crates/scheduler/src/evaluator.rs:265-302 | A run of 240 invalid anchors ends the search with nothing, and one anchor fewer does not |
| Evaluator.ParseStandardCron | crates/scheduler/src/evaluator.rs:239-253 | Only five-field expressions whose fields all pass the white list reach the cron library |
| CronLexer.IsStandardCronField | crates/scheduler/src/evaluator.rs:205-235 | The byte loop accepts exactly the fields that are strings of digits, `*`, `?`, `,`, `-`, `/` and the position's three-letter names; it terminates and never cuts a multi-byte character |
| CronLexer.FirstLexeme | crates/scheduler/src/evaluator.rs:208-233 | A field's first byte determines its first lexeme, and what follows is a field again |
| CronLexer.OnlyPlainBytes | crates/scheduler/src/evaluator.rs:199-213 | In the positions without names exactly the fields of digits and `* ? , - /` pass, so no letter and no other sign |
| Evaluator.Pick | crates/scheduler/src/evaluator.rs:304-309 | A random pick is inside the half-open window, even for windows shorter than a second |
| FuzzyWindows.PickReachesEverySecond | crates/scheduler/src/evaluator.rs:304-309 | Every whole second of the window is picked for some random number |
| Evaluator.NextFuzzy | crates/scheduler/src/evaluator.rs:145-174 | The loop over fourteen dates computes the search for the first pick |
| FuzzyWindows.PickIsForSomeDate | crates/scheduler/src/evaluator.rs:160-172 | Every pick is strictly after `after`, for a matching date within the searched ones whose window was still ahead |
| FuzzyWindows.PickLandsInWindow | crates/scheduler/src/evaluator.rs:160-172 | In a calm zone a pick is on its window's date and not before the window; it is at or past the window's end if and only if it overshoots: the time was skipped and the first existing quarter-hour step past it is past the end |
| FuzzyWindows.GapFreeNeverOvershoots | crates/scheduler/src/evaluator.rs:53-68 | Where the clock is never set forward no pick overshoots its window |
| FuzzyWindows.FuzzyAlwaysPicks | crates/scheduler/src/evaluator.rs:158-172 | A period matching some weekday always has a next pick, within eight dates |
| FuzzyWindows.EarliestWindowIsPicked | crates/scheduler/src/evaluator.rs:158-172 | In a calm zone the pick is in the earliest matching window that the clock has not reached |
| FuzzyWindows.FuzzyDatesAsked | crates/scheduler/src/evaluator.rs:158-173 | In any zone nothing is picked if and only if none of fourteen dates yields a pick with its random number |
| FuzzyWindows.KeptStartMeansOnce | crates/scheduler/src/evaluator.rs:161-164 | If no matching window's start is repeated, re-evaluating once a pick is due never answers the same window again |
| FuzzyWindows.RepeatedStartMeansTwice | crates/scheduler/src/evaluator.rs:161-164 | Any clock change that repeats the start of a matching window gives two picks in that window |
| FuzzyWindows.HitTwiceIffStartRepeats | crates/scheduler/src/evaluator.rs:161-164 | Two evaluations, the second once the first's answer is due, can answer the same window if and only if a matching window's start lies strictly inside a repeated stretch |
| Evaluator.EvaluateNextOccurrence | crates/scheduler/src/evaluator.rs:74-177 | Every kind is evaluated as specified |
| Recurrence.NextIsAfter | crates/scheduler/src/evaluator.rs:74-177 | Whatever the zone, the cron library and the random numbers, an answer is strictly after `after` |
| Recurrence.RecurringKindsAlwaysHaveNext | crates/scheduler/src/evaluator.rs:74-177 | Up to any horizon positive intervals and calendar kinds in calm zones have a next occurrence; a cron library need find matches only from anchors before the horizon |
| Queues.FirstIsUnique | crates/scheduler/src/queue.rs:14-24 | Time, then larger task id, then larger trigger id leaves no ties between different entries |
| Queues.FirstMeans | crates/scheduler/src/queue.rs:14-24 | The first entry is one at the earliest time, of the largest task id at that time, of the largest trigger id in that task |
| Queues.ScheduleQueue.constructor | crates/scheduler/src/queue.rs:38-41 | A new queue is valid and has no entries |
| Queues.ScheduleQueue.Push | crates/scheduler/src/queue.rs:43-48 | Adds one entry if the item carries its task's current generation, and otherwise changes nothing |
| Queues.ScheduleQueue.Pop | crates/scheduler/src/queue.rs:50-57 | Removes the first live entry in firing order whatever stale items lie above it, and answers nothing exactly when none is live |
| Queues.ScheduleQueue.PeekValid | crates/scheduler/src/queue.rs:63-71 | Shows the entry the next pop would take and leaves the live entries alone, though it drops stale items |
| Queues.ScheduleQueue.BumpGeneration | crates/scheduler/src/queue.rs:73-77 | Deletes exactly the task's entries without touching the heap, and no item of the task is current any more |
| Queues.ScheduleQueue.CurrentGeneration | crates/scheduler/src/queue.rs:79-81 | The task's live entries are exactly its items that carry the answered generation, and no item is ahead of it |
| Queues.ScheduleQueue.Clear | crates/scheduler/src/queue.rs:87-89 | Leaves no entry and keeps the generations |
| Queues.ScheduleQueue.NextFireByTrigger | crates/scheduler/src/queue.rs:99-120 | The map has the earliest live entry of every trigger that has one, and no other key |
| Queues.ScheduleQueue.TakeTaskItems | crates/scheduler/src/queue.rs:122-136 | Hands over exactly the task's items, stale ones included, and keeps exactly the others |
| Queues.PoppingTheTop | crates/scheduler/src/queue.rs:50-71 | The heap's maximum is either stale, and dropping it changes no live entry, or it is the first live entry |
| Queues.LiveOfOneMore | crates/scheduler/src/queue.rs:43-48 | One more item is one more live entry exactly if it is current |
| Schedulers.Scheduler.constructor | crates/scheduler/src/scheduler.rs:79-83 | The loop starts with no entries, no tasks and no events |
| Schedulers.Scheduler.AddTask | crates/scheduler/src/scheduler.rs:110-128 | The task's old entries are replaced by the next occurrences of its enabled triggers, and it is registered |
| Schedulers.Scheduler.RemoveTask | crates/scheduler/src/scheduler.rs:129-133 | The task is unregistered and its entries are gone |
| Schedulers.Scheduler.TriggerNow | crates/scheduler/src/scheduler.rs:134-140 | One manual event is sent and nothing else changes |
| Schedulers.Scheduler.TimerFires | crates/scheduler/src/scheduler.rs:149-176 | The first live entry is sent and replaced by its trigger's next occurrence while task and trigger are enabled |
| Schedulers.Scheduler.Tick | crates/scheduler/src/scheduler.rs:177-209 | Only a drift of more than thirty seconds, in whole seconds truncated toward zero, rebuilds the queue |
| Schedulers.Scheduler.Rebuild | crates/scheduler/src/scheduler.rs:186-205 | The entries become the next occurrences of all enabled triggers of all enabled registered tasks |
| Schedulers.Scheduler.RerollTrigger | crates/scheduler/src/scheduler.rs:221-286 | Each of the four refusals leaves everything alone; otherwise the target's entries move to the answered time, and the heap holds no stale item of the task |
| Schedulers.Scheduler.Drain | crates/scheduler/src/scheduler.rs:246-253 | The valid items drained are exactly the task's live entries |
| Schedulers.Scheduler.RequeueItems | crates/scheduler/src/scheduler.rs:255-270 | Every drained item comes back, those of the target at its next occurrence or not at all |
| Schedulers.Scheduler.RequeueMissing | crates/scheduler/src/scheduler.rs:272-283 | A target without an entry gets one if it has a next occurrence |
| SchedulerSteps.TimerKeeps | crates/scheduler/src/scheduler.rs:149-176 | A timer turn with its entry due keeps the invariant: one entry per trigger, agreement with the registry, entries not before sent events |
| SchedulerSteps.TickKeeps | crates/scheduler/src/scheduler.rs:177-209 | A tick, with or without a rebuild, keeps the invariant |
| SchedulerSteps.RerollKeeps | crates/scheduler/src/scheduler.rs:221-286 | A reroll keeps the invariant |
| SchedulerSteps.AddKeeps | crates/scheduler/src/scheduler.rs:110-128 | Adding or replacing a task keeps the invariant |
| SchedulerRuns.RunKeeps | crates/scheduler/src/scheduler.rs:85-211 | The invariant holds after any mix of commands, timer turns and ticks while the wall clock never goes back |
| TaskTurns.RemovedIsGone | crates/scheduler/src/scheduler.rs:129-133 | After a removal no entry of the task is queued and it is unregistered; entries and registration of all other tasks, and the events, are as before |
| TaskTurns.RemovedStaysSilent | crates/scheduler/src/scheduler.rs:129-133 | After a removal in any run, and until the task is added again, nothing of it is queued or registered and no timed event of it is sent |
| TaskTurns.AddedIsQueued | crates/scheduler/src/scheduler.rs:110-128 | After adding a task it is registered and has exactly one entry for each enabled trigger with a next occurrence, if it is enabled; nothing changes for other tasks |
| TaskTurns.TickRebuildsIffDrifted | crates/scheduler/src/scheduler.rs:177-209 | Between two ticks of any run: if the wall clock moved more than 30 whole seconds further, or that much less, than the monotonic one, the entries are those of re-adding every task; otherwise they are left alone; tasks and events stay |
| TaskTurns.RerollAcceptedIff | crates/scheduler/src/scheduler.rs:227-244 | In every reachable state a reroll is accepted if and only if task and trigger are there and enabled, with that trigger's next occurrence as answer; each refusal has its own reason and changes nothing |
| TriggerHistories.SentByStep | crates/scheduler/src/scheduler.rs:134-175 | A manual trigger sends one event at its instant, a timer turn the first entry's, and no other turn any |
| SchedulerRuns.TimedEventsInOrder | crates/scheduler/src/scheduler.rs:149-176 | Over a whole run the scheduled times of timed events never decrease, and strictly increase for each trigger: no occurrence fires twice |
| SchedulerRuns.QueueAgreesWithRegistry | crates/scheduler/src/scheduler.rs:110-133 | In every reachable state each entry names an enabled trigger of an enabled registered task, at most one each, and every enabled trigger whose kind recurs up to the present has one |
| SchedulerRuns.CatchUpFiresEachDueOnce | crates/scheduler/src/scheduler.rs:91-98 | At a frozen clock as many timer turns as there are due entries fire each exactly once, in firing order, and leave nothing due |
| SchedulerRuns.OneDueLess | crates/scheduler/src/scheduler.rs:149-168 | Each timer turn lowers the number of due entries by one, since nothing it queues is due |
| SchedulerRuns.RebuildIsReAdding | crates/scheduler/src/scheduler.rs:181-206 | A rebuild leaves the entries that adding all registered tasks, in any order, to a fresh scheduler would make |
| SchedulerRuns.RerolledEntries | crates/scheduler/src/scheduler.rs:221-286 | After an accepted reroll the target's only entry time is the answered one, and every other entry is unchanged |
| SchedulerRuns.RerollMovesOnlyTarget | crates/scheduler/src/scheduler.rs:221-286 | After an accepted reroll the next-fire map of every other trigger is unchanged, and the target's is the reply (absent exactly if the reply has no time) |
| EarlyTimers.EarlyTimerFiresTwice | crates/scheduler/src/scheduler.rs:149-176 | A concrete run: a timer that goes off before the wall clock reaches the entry fires a one-shot trigger twice |
| EarlyTimers.RepeatsIffEarly | crates/scheduler/src/scheduler.rs:149-176 | After any run, one more timer turn can be followed by a repeated firing (by some further commands) if and only if it came before its entry was due |
| EarlyTimers.EarlyTimerRefires | crates/scheduler/src/scheduler.rs:149-168 | If the trigger, asked at an early timer turn, answers the occurrence just fired, the next due timer turn fires it again with no other command |
| EarlyTimers.SameAnswerUntilDue | crates/scheduler/src/evaluator.rs:76-135 | One-shot, anchored interval, daily and weekly triggers give the same answer at every instant before it is due, so for them an early turn always requeues what it fired |
| TriggerHistories.EventWasMade | crates/scheduler/src/scheduler.rs:110-206 | Every event of a trigger was computed at an instant no earlier than all its previous events, through re-adds, rerolls and rebuilds |
| TriggerHistories.IntervalStaysOnGrid | crates/scheduler/src/evaluator.rs:83-98 | Over a whole run an anchored interval fires only at `base + k * interval`, however late the fires are |
| TriggerHistories.UnanchoredEventsAreApart | crates/scheduler/src/evaluator.rs:83-98 | Over a whole run each event of an interval without a start lies its length after the instant of some turn, and any two are at least that length apart |
| TriggerHistories.EventsAreMadeInTurns | crates/scheduler/src/scheduler.rs:110-206 | Every entry and event of a trigger is an answer of the evaluator at the instant of some turn of the run |
| TriggerHistories.SilentKindsNeverFire | crates/scheduler/src/evaluator.rs:74-177 | Network and start-up triggers, zero intervals, empty day lists, empty windows and cron fields off the white list never fire by themselves in any run |
| TriggerHistories.OnceFiresOnce | crates/scheduler/src/evaluator.rs:76-82 | Over a whole run a one-shot trigger fires at most once, at its time, even if its task is added again |
| TriggerHistories.FuzzyFiresOncePerWindow | crates/scheduler/src/evaluator.rs:145-174 | Over a whole run, re-adds, rerolls and rebuilds included, a fuzzy trigger's events are in windows of strictly later and later matching dates, if no matching window's start is repeated |
| TriggerHistories.FuzzyFiresInWindow | crates/scheduler/src/evaluator.rs:160-172 | Every event of a fuzzy trigger in any run is on a matching date, not before the window starts, and past its end exactly on an overshoot, so never in a zone without gaps |
| FuzzyRuns.FiresOnceIffStartKept | crates/scheduler/src/evaluator.rs:161-164 | The "at most once per window" promise over runs: no run of the scheduler fires a fuzzy trigger twice in one window if and only if no matching window's start lies strictly inside a repeated stretch |
| FuzzyRuns.LateRunFires | crates/scheduler/src/scheduler.rs:149-176 | Adding the task, firing its pick at a later instant and firing the next one is a run with exactly these two events |
| FuzzyRuns.AutumnNightFiresTwice | crates/scheduler/src/evaluator.rs:161-164 | A concrete calm zone, set back from 02:00 to 01:00 on one night: a daily window starting at 01:30 is fired twice by some run |
| Rfc3339.TextOrderIsTimeOrder | crates/persistence/src/execution_repo.rs:57 | For years 0 to 9999 the text of one UTC time sorts before that of another if and only if the time is earlier, whatever numbers of fraction digits |
| Rfc3339.TextShowsFields | crates/persistence/src/execution_repo.rs:57 | Each field of the time stands in its place and reads back as its number, with 0, 3, 6 or 9 fraction digits and the offset at the end |
| RunStores.TextEqualIsTimeEqual | crates/persistence/src/execution_repo.rs:57 | Two texts are equal exactly if the times are |
| RunStores.RunStore.CreateRun | crates/persistence/src/execution_repo.rs:47-66 | Inserts the row, or fails and changes nothing when the id is taken, the task is gone or the database fails; no row is ever without its task |
| RunStores.RunStore.UpdateRun | crates/persistence/src/execution_repo.rs:68-88 | Rewrites the outcome columns of an existing row and never its task or start |
| RunStores.RowsTellRuns | crates/persistence/src/execution_repo.rs:47-66 | Two runs are stored as the same row exactly if they agree on task, start, status, end, exit code and error |
| RunStores.UpdateReplacesOutcome | crates/persistence/src/execution_repo.rs:68-88 | Creating and then updating a run stores the updated outcome under the task and start it was created with, and only the last update counts |
| RunStores.RunStore.PurgeExpiredRuns | crates/persistence/src/execution_repo.rs:151-169 | Deletes by text comparison and answers how many rows went |
| RunStores.PurgeIsExact | crates/persistence/src/execution_repo.rs:151-169 | A row goes exactly if it is the task's, is not Running and started before the cutoff in time; all others stay as they are |
| RunStores.RunStore.FindLatestRunPerTask | crates/persistence/src/execution_repo.rs:171-206 | Every asked task with a run gets the row that sorts first in its partition, and no other task gets one |
| RunStores.TopIsLatest | crates/persistence/src/execution_repo.rs:181-189 | The row that sorts first is the truly latest run of its task, the larger id winning a tie |
| RunStores.RunStore.FindRecentRuns | crates/persistence/src/execution_repo.rs:103-115 | Answers `limit` distinct rows (or all), newest text first, leaving no newer row out |
| RunStores.RecentAreLatest | crates/persistence/src/execution_repo.rs:103-115 | Newest text first means latest start first, both among the answered rows and against those left out |
| RunStores.RunStore.RecoverDanglingExecutions | crates/persistence/src/recovery.rs:5-20 | Exactly the Running rows change, to Interrupted with task and start kept; none is Running afterwards, and the answer is the number of changed rows |
| RunStores.RunStore.DeleteTask | crates/persistence/src/task_repo.rs:233-240 | The task goes with exactly the runs that refer to it, Running ones included, so no run is left without its task |
| ActionChains.PassedPrefix | apps/agent/src/service.rs:282-284 | The number of leading actions that are disabled or exit with 0: all of those pass and the next one does not |
| ActionChains.RunActions | crates/executor/src/runner.rs:36-157 | A run succeeds if and only if every enabled action exits with 0; otherwise its first failing action alone decides status, exit code and error, and none after it starts |
| ActionChains.EndRecords | apps/agent/src/service.rs:278-335 | Told by the action list: all succeed or there is one first failing action, and a time-out is recorded as TimedOut, a cancellation as Cancelled, any other exit or a failed start as Failed, each with its exit code and error |
| ExecutionManagers.ExecutionManager.constructor | crates/executor/src/manager.rs:25-30 | All permits are free and no task has a count |
| ExecutionManagers.ExecutionManager.TryAcquirePermit | apps/agent/src/service.rs:226-235 | A permit is taken if one is free |
| ExecutionManagers.ExecutionManager.TryAcquireSlot | crates/executor/src/manager.rs:32-58 | Grants a slot exactly if the policy admits one more, and a refusal leaves no zero entry behind |
| ExecutionRuns.SlotGrantedIffUnderLimit | crates/executor/src/manager.rs:32-58 | In every run a run that asks for its slot gets it if and only if its policy is AllowParallel, or fewer than one (SkipIfRunning) or two (QueueOne) slots of its task are held; otherwise it is gone and its permit back |
| ExecutionManagers.ExecutionManager.ReleaseSlot | crates/executor/src/manager.rs:65-75 | Gives one slot back and prunes the entry that reaches zero |
| ExecutionManagers.ExecutionManager.TotalRunningCount | crates/executor/src/manager.rs:82-85 | Adds up all counts, in whatever order they are visited |
| ExecutionAgents.Agent.constructor | apps/agent/src/service.rs:59-65 | Start-up recovers the table before anything runs |
| ExecutionAgents.Agent.Arrive | apps/agent/src/service.rs:221-235 | A run of an existing task enters with a permit; without task or permit nothing changes |
| ExecutionAgents.Agent.TakeSlot | apps/agent/src/service.rs:237-243 | A run takes a slot of its task, or gives its permit back |
| ExecutionAgents.Agent.CreateRow | apps/agent/src/service.rs:252-270 | A Running row and a cancellation entry appear together, or, also when the task is gone, the slot goes back |
| ExecutionAgents.Agent.Answer | apps/agent/src/service.rs:777-781 | A manual run that cannot serialise its reply drops its permit but keeps slot, row and cancellation entry |
| ExecutionAgents.Agent.Finish | apps/agent/src/service.rs:274-335 | The chain's outcome is written to the row; a failing update leaves the row Running |
| ExecutionAgents.Agent.Release | apps/agent/src/service.rs:373-374 | The cancellation entry and the slot go back |
| ExecutionAgents.Agent.Leave | apps/agent/src/service.rs:252-262 | The permit goes back |
| ExecutionAgents.Agent.Purge | apps/agent/src/service.rs:434-470 | Only the run table changes |
| ExecutionAgents.Agent.DeleteTask | apps/agent/src/service.rs:667-690 | The task and its rows go; permits, slots, cancellation entries and the runs in flight stay |
| ExecutionAgents.Agent.CrashAndRestart | apps/agent/src/service.rs:53-65 | Only the recovered run table survives |
| ExecutionProtocol.TotalIsOwners | crates/executor/src/manager.rs:82-85 | If every count is the number of runs owning a slot of that task, the total is the number of owners |
| ExecutionProtocol.StepKeepsPermits | apps/agent/src/service.rs:226-262 | Every step keeps permits and runs in flight adding up: a run takes a permit as it enters and gives it back as it goes |
| ExecutionProtocol.StepKeeps | apps/agent/src/service.rs:226-374 | Every step of either path, task saves and deletions, purges and restarts keep: permits add up, counts are slot owners, rows belong to existing tasks, and tables match the runs' phases |
| ExecutionRuns.PermitsAndSlotsConserved | crates/executor/src/manager.rs:32-85 | Under any interleaving: permits add up, each task's count is its runs holding a slot, no zero entries; and unless a trigger leaked, slot holders are permit holders and the total never exceeds the permits |
| ExecutionRuns.QuiescentIffNoLeak | apps/agent/src/service.rs:719-889 | With nothing in flight all permits are back, and the counts and cancellation entries are empty if and only if no manual trigger gave up over its reply since the last restart |
| ExecutionRuns.LostIffLeaks | apps/agent/src/service.rs:777-781 | A slot without a run is left by a run's steps if and only if some trigger gave up over its reply and no restart followed |
| ExecutionRuns.LeakExceedsPermits | apps/agent/src/service.rs:777-781 | A concrete run with one permit: a trigger that gives up and one more run make a total of two |
| ExecutionRuns.PolicyLimitHolds | crates/executor/src/manager.rs:36-56 | A task always run under one limiting policy never has more than that policy's limit running |
| ExecutionRuns.EntersIffRoom | apps/agent/src/service.rs:221-235 | In every run a run enters if and only if its task exists and fewer runs are in flight than there are permits |
| ExecutionRuns.RowInsertedIffTaskExists | apps/agent/src/service.rs:252-270 | In every run a row is inserted if and only if the database works and the task still exists; otherwise the slot is back |
| ExecutionRuns.UndisturbedRunGivesAllBack | apps/agent/src/service.rs:252-374 | From its slot a run can go on through insertion, on the manual path its reply, actions, end and release, and then has given back slot, cancellation entry and permit and nothing else |
| ExecutionRuns.TaskExistsIffSaved | crates/persistence/src/task_repo.rs:137-240 | A task exists if and only if it was saved and not deleted since, or was there at first and never deleted |
| ExecutionRuns.PurgeTakesTheExpired | crates/persistence/src/execution_repo.rs:151-169 | In every run a purge takes exactly the task's finished rows that started before the cutoff, and changes nothing else |
| ExecutionRuns.StepMovesRows | apps/agent/src/service.rs:252-355 | In every run a step inserts rows only as Running, changes a Running row only by its end, to a final status, or by restart, to Interrupted, and takes a Running row away if and only if it deletes the row's task; finished rows only go with their task or a purge |
| ExecutionRuns.FinishedIsFinal | apps/agent/src/service.rs:259-355 | A finished row is never changed by any continuation, restarts included; it can only be deleted |
| ExecutionRuns.DeletedStaysDeleted | crates/persistence/src/execution_repo.rs:151-169 | A row once deleted never comes back |
| ExecutionRuns.RestartRecovers | crates/persistence/src/recovery.rs:5-20 | A crash at any point of any run and start-up give the state of a first start over the tables left behind: no row is Running, and exactly those that were are Interrupted |
| ExecutionRuns.FinalStatusInRuns | apps/agent/src/service.rs:252-355 | Every run that ends has inserted its row before; the row is there in the end if and only if its task was not deleted in between, final if and only if besides the update did not fail, and then records status, exit code and error by the first failing action of its list, and the end time |
| ExecutionRuns.FinalStatusIffTaskKept | apps/agent/src/service.rs:667-690 | From inserting a row to its run's end, whatever happens in between, only deleting the task takes the row away, and a task saved again does not bring it back |
| ExecutionRuns.RunKeepsStamps | crates/persistence/src/execution_repo.rs:57 | In every run stored start times are texts of start times, so the purge and the queries always compare times |
| OutputReaders.OutputReader.constructor | crates/executor/src/runner.rs:85-86 | The buffer starts empty |
| OutputReaders.OutputReader.Append | crates/executor/src/runner.rs:194-206 | After every chunk the buffer is the bytes read so far, or their first 2 MiB and the suffix once; no slice is out of range |
| OutputReaders.OutputReader.ReadAll | crates/executor/src/runner.rs:182-211 | However the stream is cut into reads, up to its end or a read error, the buffer ends as the capped stream |
| OutputReaders.CappedShows | crates/executor/src/runner.rs:13-14 | Up to two mebibytes are shown as they are; beyond, exactly the first two mebibytes and the note |
| OutputReaders.StreamOfOneMore | crates/executor/src/runner.rs:189-206 | A read adds its bytes exactly if neither it nor any read before it failed or was empty |
| OutputReaders.CutsDoNotMatter | crates/executor/src/runner.rs:189-206 | Cutting one read in two shows the same stream |
| OutputReaders.SnapshotsAgree | crates/executor/src/runner.rs:160-180 | A snapshot taken on the drain timeout agrees with every later one on the stream bytes it shows, and a truncated one is final |
| EdgeDetection.EdgeDetector.Changed | apps/agent/src/network.rs:256-262 | Records the value, and reports a change exactly if the key was seen with the other value |
| EdgeDetection.Collapse | apps/agent/src/network.rs:236-243 | Collapsing repeats keeps the first and last value and leaves an alternating sequence |
| EdgeDetection.EdgesAreChanges | apps/agent/src/network.rs:236-262 | For any feed of observations over any keys, what is reported for a key is the sequence of its values with repeats collapsed and the head dropped |
| EdgeDetection.Debouncer.Allow | apps/agent/src/network.rs:278-288 | Lets a report through unless the last one let through was of its kind less than 500 ms ago |
| EdgeDetection.PassedAreApart | apps/agent/src/network.rs:265-288 | In any sequence of attempts, neighbouring reports of one kind that pass are at least 500 ms apart |
| EdgeDetection.OnlyQuickRepeatsAreDropped | apps/agent/src/network.rs:278-288 | In any sequence of attempts exactly those are dropped that repeat the kind that passed last less than 500 ms after it |
| MacNetwork.MacWatcher.StatusToConnectChange | apps/agent/src/network.rs:429-435 | Only satisfied and unsatisfied are recorded, and only their changes answered |
| MacNetwork.MacWatcher.PathUpdated | apps/agent/src/network.rs:361-382 | A callback reports and changes what the step function says, and nothing once stopped |
| MacNetwork.MacWatcher.ProbeDone | apps/agent/src/network.rs:464-473 | A successful probe reports Online through the shared debouncer |
| MacNetwork.StoppedReportsNoTurn | apps/agent/src/network.rs:361-364 | Once stopped, no further event of any sequence is reported as a connect or disconnect |
| MacNetwork.ChangeIsReported | apps/agent/src/network.rs:367-382 | The debouncer never swallows a status change, since it last let through an Online or the opposite direction |
| MacNetwork.TurnsAreStatusChanges | apps/agent/src/network.rs:361-388 | For any interleaving with online probes, the connects and disconnects reported are the satisfied and unsatisfied statuses up to the stop with repeats collapsed and the head dropped |
| MacNetwork.ProbesAreReported | apps/agent/src/network.rs:464-473 | In every run a successful probe is reported unless the last report was an online report less than 500 ms before |
| WindowsNetwork.WindowsWatcher.IpCallback | apps/agent/src/network.rs:614-646 | A notification without a row, or with a changed one, starts an arbitration |
| WindowsNetwork.WindowsWatcher.TakeBaseline | apps/agent/src/network.rs:574-583 | The baseline is taken only while the connectivity is unknown |
| WindowsNetwork.WindowsWatcher.SettleEdge | apps/agent/src/network.rs:671-675 | An arbitration overtaken while settling is dropped |
| WindowsNetwork.WindowsWatcher.ConcludeEdge | apps/agent/src/network.rs:676-709 | An arbitration overtaken while probing, or finding the connectivity unchanged, is dropped; otherwise it reports |
| WindowsNetwork.WindowsWatcher.EmitArbitrated | apps/agent/src/network.rs:729-735 | An event is sent if the debouncer lets it through |
| WindowsNetwork.ReportsAlternate | apps/agent/src/network.rs:657-709 | In every run the baseline and the reports alternate, the stored connectivity is the last of them, none of their events is swallowed, and reporting arbitrations are ever newer |
| WindowsNetwork.OnlyTheNewestReports | apps/agent/src/network.rs:671-709 | In every reachable state a step reports if and only if it concludes the newest arbitration with the connectivity turned, and then all its events are sent |
| WindowsNetwork.ArbitrationsAreEdges | apps/agent/src/network.rs:614-664 | In every run exactly the edges (wireless, without a row, or a changed reading of an interface) start arbitrations, and the newest number is their count |
| WindowsNetwork.UndisturbedEdgeDecides | apps/agent/src/network.rs:662-709 | An edge that no other follows is decided: the stored connectivity becomes what its probe found, and Connect and Online, or Disconnect, are sent exactly on a turn |
| WindowsNetwork.BaselineCountsFirst | apps/agent/src/network.rs:574-583 | In every run a baseline counts if and only if nothing was known before, and sends nothing |
| IpcClients.PendingResponses.Take | crates/ipc/src/client.rs:83-86 | Removes the entry of an id and answers what it held |
| IpcClients.IpcClient.Begin | crates/ipc/src/client.rs:134-142 | A call is registered before it is sent |
| IpcClients.EarlyReplyIsKept | crates/ipc/src/client.rs:138-151 | In every run a reply that arrives before its call waits is kept: the call can then wait, receive and return it, since it registers before it sends |
| IpcClients.IpcClient.OnResponse | crates/ipc/src/client.rs:82-86 | A reply goes to the channel registered under its id, if any |
| IpcClients.IpcClient.EndWait | crates/ipc/src/client.rs:150-172 | A call stops waiting on a reply, on a closed channel, or on the timeout |
| IpcClients.IpcClient.CleanUp | crates/ipc/src/client.rs:144-172 | Every failing call takes its id out of the table before it returns |
| IpcClients.IpcClient.OnReaderExit | crates/ipc/src/client.rs:102-104 | The reader's exit clears the table and closes the channels in it |
| IpcClients.StepKeeps | crates/ipc/src/client.rs:75-174 | Every step keeps: an id is in the table exactly while its one call can still be answered, and a reply held is the call's own |
| IpcClients.OwnReplyOnly | crates/ipc/src/client.rs:150-159 | In every run an answered call got a reply that was read and bears its own id, and a call that returned has no entry |
| IpcClients.EntriesBelongToOpenCalls | crates/ipc/src/client.rs:138-172 | In every run the ids in the table are exactly those of calls that have neither an answer nor returned |
| IpcClients.ResultIsFinal | crates/ipc/src/client.rs:150-173 | A call's result never changes in any continuation |
| IpcClients.StrayRepliesAreDropped | crates/ipc/src/client.rs:82-86 | In every reachable state a late, repeated or unknown reply changes nothing, and any other reaches the one call with its id and no other |
| IpcClients.ReaderExitFailsWaiting | crates/ipc/src/client.rs:102-104 | Every call without a reply when the reader exits can only return an error in any continuation |
| IpcClients.FailureTellsWhy | crates/ipc/src/client.rs:144-172 | In every run a call fails for sending, for a closed channel or for time if and only if that befell it |
| IpcClients.ChannelClosesOnlyByExit | crates/ipc/src/client.rs:160-164 | In every run a waiting call finds its channel closed only after the reader's exit |
| CronValidator.Split | apps/desktop/src/types/task.ts:142 | Splitting at a separator yields parts that glue back to the text |
| CronValidator.UpperOfLower | apps/desktop/src/types/task.ts:172-174 | Upper-casing a name is the same as putting its lower-case form in capitals, so both programs look up the same name |
| CronValidator.TokenIsListed | apps/desktop/src/types/task.ts:157-167 | Every token the desktop accepts is a string of lexemes the agent allows in that position |
| CronValidator.AcceptedIsListed | apps/desktop/src/types/task.ts:136-155 | Every five-field list the desktop validator accepts passes the agent's white list field by field |
| CronValidator.AcceptsExactlyFields | apps/desktop/src/types/task.ts:136-178 | The validator accepts exactly five fields of stars and comma-separated items: numbers and names in the position's bounds, ranges of them not running backwards (a Sunday that ends one counts as 7), and positive steps |

## Left out

- Evaluator.EvaluateNextOccurrence: does not model overflow of 64-bit seconds or of the library's date range; integers are unbounded and every date has a successor.
- Evaluator.NextFuzzy: as in the other calendar kinds, leap seconds in time-of-day values (sub-second parts of a second or more) are not representable.
- Evaluator.CronNextOccurrence: the loop treats an anchor inside a gap as the code does, but the theorem about it assumes a matcher that never answers so from the anchors asked, because that library's behaviour there is not part of this model; the library's parser is a parameter.
- Evaluator.ParseStandardCron: takes the expression already split at white space; where the desktop and the agent disagree on what is white space they may split one text differently, so agreement is stated field by field.
- Zones.FromLocalIsExact: zones change their offset at most once in two days and are set back by a day at most, so that no reading stands for three instants; two changes within two days are not modelled.
- Schedulers.Scheduler.AddTask: one reading of the wall clock serves a whole turn of the loop, where the code reads it again for each trigger.
- SchedulerRuns.TimedEventsInOrder: a backward jump of the wall clock may fire an occurrence again and is excluded.
- Schedulers.Scheduler.RequeueItems: repeated entries of the one target trigger share one random draw and one reading of the clock; no run with distinct trigger ids has such entries.
- Schedulers.Scheduler.RerollTrigger: the texts of the refusals are an enumeration.
- Schedulers.Scheduler.TimerFires: sending an event always succeeds; a closed or full event channel, and the loop's shutdown, are not modelled.
- Queues.ScheduleQueue.Top: the binary heap's layout is replaced by a multiset and its contract, removal of a greatest item; generations do not wrap at 64 bits.
- ActionChains.RunActions: what a process did is a parameter; spawning, killing, time limits and decoding are not modelled, and message texts leave out exit codes and seconds.
- ExecutionProtocol.StepKeeps: looking up the task and taking the permit is one step; the row columns for the trigger id, the scheduled time and the duration are not modelled; cancellation only appears as an action's outcome; removing the cancellation entry and the slot at the end of a run is one step.
- ExecutionAgents.Agent.Purge: how the retention setting becomes a cutoff is not modelled; any cutoff may occur.
- RunStores.RunStore.UpdateRun: SQL, migrations and JSON are not modelled; each statement is one atomic step.
- Rfc3339.TextOrderIsTimeOrder: years outside 0 to 9999 are written with a sign and are excluded.
- OutputReaders.OutputReader.ReadAll: the lock around the buffer never fails.
- MacNetwork.TurnsAreStatusChanges: the ten-second pause between online probes is not modelled; a probe may succeed at any time.
- WindowsNetwork.ReportsAlternate: the checks and the sending at the end of an arbitration are one step; SSIDs are not modelled.
- IpcClients.OwnReplyOnly: request ids are never drawn twice; the decoding of a reply's content into a value or an error, events and the writer task are not modelled.
- CronValidator.AcceptedIsListed: the other direction of the agreement does not hold and is not claimed, since the white list checks no ranges.
- The dispatch of network events to tasks by kind and SSID, the check for public addresses and the HTTP probes: each says nothing beyond its body.
- Agent-started triggers at start-up and the order of service start-up beyond recovery.
- `append_output` and `get_outputs`, the contents of the task table beyond which tasks exist, settings, and the RPC handlers other than the manual trigger and the saving and deleting of tasks.
- `missed_run_policy` and `retry_policy` are never consulted by the modelled code; `QueueOne` admits a second simultaneous run and queues nothing.
- The desktop user interface, notifications, service installation, sockets and named pipes.

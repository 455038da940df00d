# Durable-execution components: a model and its proofs

This project models the components of Concile that keep promises across crashes and restarts, and proves those
promises for every input and every run:

- **Workflows** (`Workflow*.dfy`): a handler is re-run from the top against a durable journal of its steps; on failure
  or cancel the journal is walked backwards. `WorkflowReplay` has the replay and the direct semantics it must agree
  with, `WorkflowMachine` the mutations (as functions, and as methods of a class over the rows that compute them),
  `WorkflowRuns` and `WorkflowInvariant` the runs and what every step keeps, and the other modules the results:
  `WorkflowReports` ties what the handler sees to what was reported, `WorkflowRequests` what is dispatched and undone
  to what the handler asked for, `WorkflowOutcomes` what is told at the end to what is on the row.
- **Scheduler** (`Scheduler*.dfy`, `Cron*.dfy`): the job table with leases, retry budget, callbacks and cascading
  cancel; the arithmetic of late cron ticks; the protocol that keeps one cadence chain per cron across reboots; and
  the wake loop of the driver.
- **Triggers** (`Trigger*.dfy`): a durable cursor over the commit log, the byte cut, one drain attempt, and runs with
  several drivers on one cursor.
- **Authorization** (`Authz*.dfy`): role expansion over any inheritance graph, and the materialised permission index
  that must agree with the assignments.
- **Notification digest** (`NotificationDigest.dfy`, `DigestRuns.dfy`) and **sessions** (`AuthSessions.dfy`).

`dafny verify dfyconfig.toml` checks everything.

## How the model reads the code

- A transaction is one atomic step; a throw rolls it back. Queries see the transaction's own writes
  (`packages/executor/src/kernel.ts:751-752`). The comments in `components/authz/src/effective-permissions.ts:47-50`
  and `components/authz/src/functions.ts:44-45` say otherwise; the code is followed. The answers there are the same,
  because no query follows a write to the rows it reads.
- A workflow handler is a function of the step outcomes it has seen, and says what it does next: return, throw, start
  one or more steps whose outcomes are all awaited, or await something that is not a step. A poll is one atomic replay.
- Whole runs are sequences of labelled steps. A crash is a claim, or a delivery, that nothing follows.
- Times are integers, backoff delays any natural number, a calendar any set of occurrences with its two queries. Job
  ids are issued in increasing order. Hashes of tokens have no collisions.

## What does not hold, and exactly when it does

- A fan-out cap of zero strands every workflow that awaits a step (`WorkflowTheorems.StrandedWithoutParallelism`); with
  a cap of at least one none is stranded, as long as `_advance` and `_compensate` succeed within their retry budget. A
  dead-lettered advance strands a run exactly if all its steps have settled and no other advance is queued, and a
  dead-lettered unwind turn always (`WorkflowDeadLetter.DeadAdvanceStrandsIff`, `WorkflowDeadLetter.DeadUnwindStrands`).
- Under `fireAll` occurrences are lost exactly if a backlog exceeded a thousand (`CronCatchUp.FireAllFiresAll`). A
  clock that stepped back behind the anchor delays the next run of a calendar exactly if an occurrence lies in between,
  and that of a fixed interval always, because the anchor is one (`CronCatchUp.NextAfterClockStepBack`).
- A fire gets no work job exactly if a job with another function or other arguments has its key when it is fired
  (`CronFires.CarriedIffFoundClear`): one of the app's own (`CronFires.ClashTakesFire`), or that of an earlier fire of
  the same occurrence (`CronFires.RefiredAfterStepBack`). In any case just one job has the key (`CronFires.FiredExactlyOnce`).
- A cron goes back in time exactly if its next run from its anchor is not after all of its fires
  (`CronFires.RefiresIff`), which takes a boot that anchors it anew under a clock that stepped back
  (`CronFires.FiredExactlyOnce`, `CronFires.ClockForwardSuffices`).
- A changed catch-up policy is lost at a boot that also has to restart a dead chain, because the row is then written
  back as it was first read (`CronRuns.PolicyEditTakesEffect`).
- An action whose lease expired may still be claimed again, exactly if a retryable failure of it is reported before the
  sweep and its budget allows one more (`SchedulerRuns.ReclaimedOnlyByReport`, `SchedulerRuns.CanBeClaimedAgainIff`).
- A driver whose pass throws before it has committed anything keeps the timer it had, which is right exactly if it was
  right before the throw (`SchedulerDriver.TimerAfterThrowIff`); it is not after a first peek that throws while jobs
  are pending (`SchedulerDriver.ThrownPeekStrands`). Any other throw does no harm (`SchedulerDriver.NoLostWake`).
- A trigger whose batch size is zero moves its cursor over changes nobody is given (`TriggerRuns.NeverSkipsIff`).
- The index answers like `roleGrants` exactly for permissions of the shape in `AuthzPermissions.LookupAgreesIff`. A
  rebuild of it is right exactly if the NUL-joined keys of assigned users and scopes are apart
  (`AuthzRebuild.RebuildRefinesIff`, `AuthzRebuild.CollidingRebuild`).
- A digest's items are lost exactly if its flush finds its receipt key in use (`DigestRuns.LostIffKeyFound`), which
  takes a colon in an address, a clock that steps back or an app receipt under such a key, and each of the three can
  do it alone (`DigestRuns.OrderlyLosesNothing`, `DigestRuns.ColonLoses`, `DigestRuns.StepBackLoses`,
  `DigestRuns.AppReceiptLoses`). No item is ever mailed twice. Items are dropped on the preference of the oldest item's
  user, whoever their own user is (`DigestRuns.OthersPreferenceDecides`).

## Model

| member | source | states |
|---|---|---|
| `WorkflowReplay.RequestWave` | components/workflow/src/replay.ts:181-200 | one wave of step calls: a mismatch is reported exactly when a cached row differs in name, kind or arguments; the calls the journal does not hold become new steps with consecutive numbers; the wave is unblocked exactly when all of its rows have settled |
| `WorkflowReplay.RunReplay` | components/workflow/src/replay.ts:166-246 | the drive loop computes `Replay`, the handler raced through every settled wave of the journal |
| `WorkflowReplay.BudgetMonotone` | components/workflow/src/replay.ts:236-245 | a direct run that has ended is not changed by allowing it more steps |
| `WorkflowReplay.ReplayOfShape` | components/workflow/src/replay.ts:184-200 | on a journal that the handler itself produced, replay never meets a mismatch, and the steps it emits are, in number, name, kind, arguments and options, exactly the requests of the wave it stopped at that are not journaled yet |
| `WorkflowReplay.ReplayIsDirect` | components/workflow/src/replay.ts:166-246 | replay preserves meaning: if replay finishes, throws or stalls, running the handler once directly under any outcomes that agree with the journal does the same, with the same value or error, after as many steps as the journal has |
| `WorkflowMachine.WorkflowDb.Start` | components/workflow/src/facade.ts:67-80 | a new run is running at generation 0 with one queued advance |
| `WorkflowMachine.WorkflowDb.FireOnComplete` | components/workflow/src/modules.ts:106-119 | one job to the run's own callback with the outcome, if it has a callback |
| `WorkflowMachine.WorkflowDb.FailOrCompensateRun` | components/workflow/src/modules.ts:146-157 | terminal at once if no successful step is owed a compensation, else the unwind starts with target and error recorded |
| `WorkflowMachine.WorkflowDb.AdvanceRun` | components/workflow/src/modules.ts:187-303 | one poll: the whole new state of the rows, for each of the replay outcomes and under the fan-out cap |
| `WorkflowMachine.WorkflowDb.Dispatch` | components/workflow/src/modules.ts:246-299 | each new step is journaled, and gets either a job that carries its number and the generation, or a waiting event |
| `WorkflowMachine.WorkflowDb.StepDoneCallback` | components/workflow/src/modules.ts:320-345 | a report of the current generation settles its row and queues an advance; any other changes nothing |
| `WorkflowMachine.FindStep` | components/workflow/src/modules.ts:330-331 | the first row with the number, if there is one |
| `WorkflowMachine.HighestOwed` | components/workflow/src/modules.ts:383-388 | of the successful steps that are owed a compensation, the one with the highest number; none exactly when nothing is owed |
| `WorkflowMachine.WorkflowDb.CompensateRun` | components/workflow/src/modules.ts:377-417 | one turn of the backward walk: the highest owed step is dispatched with its own arguments and result, or the run ends in its target state |
| `WorkflowMachine.WorkflowDb.CompensateDoneCallback` | components/workflow/src/modules.ts:435-463 | success marks the step and continues the walk; anything else halts the run in failed with both errors kept; a report of another generation changes nothing |
| `WorkflowMachine.WorkflowDb.Cancel` | components/workflow/src/facade.ts:81-150 | a running run: its pending steps' unclaimed jobs are canceled, the generation is bumped, and the run ends or unwinds; any other run is left alone |
| `WorkflowMachine.WorkflowDb.SendEventTo` | components/workflow/src/events.ts:59-84 | the first waiting event of that name is received, the first parked step of that name succeeds with the payload and an advance is queued; without a waiter nothing changes |
| `WorkflowInvariant.StepKeepsInv` | components/workflow/src/modules.ts:187-463 | every step of the machine (claims, reports, callbacks, polls, events, cancels) keeps the invariant: linked rows and jobs, at most one unwind token, notices counted, events paired, saga order, journal shape |
| `WorkflowTheorems.ReachedInv` | components/workflow/src/modules.ts:187-463 | the invariant holds after every run |
| `WorkflowTheorems.JournalShape` | components/workflow/src/replay.ts:181-200 | step numbers are exactly 0, 1, ...; row i is the i-th request of the direct run; the mismatch error is unreachable |
| `WorkflowTheorems.EnqueuedOnce` | components/workflow/src/modules.ts:246-299 | each journaled step that is not an event wait has exactly one forward job, and each forward job has its row, also when a fan-out is spread over several polls |
| `WorkflowReports.HandlerSeesReports` | components/workflow/src/modules.ts:320-345 | what a step settles with is what was reported: with the outcome of each step read off the run's labels alone (the report of its job, delivered in the generation it was started in, or the payload of the signal that resolved it), the journal holds exactly these outcomes, and they are what the handler is given |
| `WorkflowReports.RunsMeanDirectRuns` | components/workflow/src/modules.ts:210-234 | whatever happened on the way, for every oracle that answers what the steps were reported to have come to: a completed run has the direct run's result, a run that failed by itself has its error, and the journal has its steps |
| `WorkflowRequests.RequestedOptions` | components/workflow/src/modules.ts:246-299 | each journal row has the undo handler and the attempts of the direct run's request, and its job is due at the time a `sleepUntil` names, the given span after the poll that emitted a `sleep`, and at once for any other request |
| `WorkflowRequests.PollFanOut` | components/workflow/src/modules.ts:240-246 | a poll starts the rest of the wave the handler is blocked on, but no more steps than the fan-out cap |
| `WorkflowRequests.CompensatesWhatWasAsked` | components/workflow/src/modules.ts:146-157 | a compensation is dispatched only for a step that was reported a success and whose request named an undo, with that undo, the request's arguments and the reported result; once a run has failed without a compensation failing, or was canceled with compensation and none failed, these are exactly the steps compensated |
| `WorkflowOutcomes.CompensationsTell` | components/workflow/src/modules.ts:435-463 | a delivered compensation has marked its step as compensated if and only if it was reported a success, and otherwise the run halted at that step with the reported error |
| `WorkflowOutcomes.NoticesAlwaysFit` | components/workflow/src/modules.ts:106-119 | the run's own callback is told what is on the row: the result, the error, the step at which the unwind halted, or that it was canceled |
| `WorkflowOutcomes.CancelStopsJobs` | components/workflow/src/facade.ts:81-150 | a cancel reports every unclaimed forward job canceled and leaves all other jobs alone, and no forward report delivered afterwards changes the journal |
| `WorkflowTheorems.NeverStranded` | components/workflow/src/modules.ts:189-302 | a running run always has a queued advance, a live step job or callback of its generation, or a waiting event with a parked step; a compensating run has exactly one live unwind token and any other run none |
| `WorkflowDeadLetter.DeadAdvanceStrandsIff` | components/workflow/src/modules.ts:189-303 | an advance that is dead-lettered strands a running run, so that short of a cancel nothing ever changes its row or journal or polls it again, if and only if every step has settled and no other advance is queued; otherwise the run keeps the invariant |
| `WorkflowDeadLetter.DeadUnwindStrands` | components/workflow/src/modules.ts:377-417 | an unwind turn that is dead-lettered leaves the run compensating for good, whatever happens afterwards |
| `WorkflowDeadLetter.CancelFrees` | components/workflow/src/facade.ts:81-150 | a cancel ends or unwinds a run whose advance was dead-lettered, and it keeps the invariant again |
| `WorkflowTheorems.StrandedWithoutParallelism` | components/workflow/src/modules.ts:240-246 | the premise of a fan-out cap of at least one is exact: with a cap of zero every handler that awaits a step first is stranded by its first poll |
| `WorkflowTheorems.TerminalIsFinal` | components/workflow/src/modules.ts:187-463 | no step of the machine changes the row of a completed, failed or canceled run |
| `WorkflowTheorems.NotifiedExactlyOnce` | components/workflow/src/modules.ts:106-119 | the run's own callback has exactly one job once the run is terminal and none before |
| `WorkflowTheorems.SendEventResolvesOne` | components/workflow/src/events.ts:71-83 | with a waiter, an event resolves exactly one parked step, the first of that name, and uses up exactly one waiting row; without one it changes nothing |
| `WorkflowTheorems.EventsPaired` | components/workflow/src/events.ts:59-84 | for every name there are always as many waiting events as pending event steps |
| `WorkflowSaga.ReverseSaga` | components/workflow/src/modules.ts:377-463 | from any unwinding run: the compensations dispatched are the owed steps from the highest down, each once, in strictly decreasing order, with their own arguments and results; the run ends with all of them done, in its target state with the original error, or halts in failed at the last one dispatched with the lower ones untouched |
| `WorkflowLiveness.StepLowers` | components/workflow/src/modules.ts:187-463 | every effective step lowers a measure that the number of steps of the direct run bounds |
| `WorkflowLiveness.RunsEnd` | components/workflow/src/modules.ts:187-463 | a run of a handler that ends within a budget of steps takes at most 10 times the budget plus 4 effective steps, with any mix of callbacks, events and cancels |
| `WorkflowLiveness.QuiescentIsTerminal` | components/workflow/src/modules.ts:187-463 | a run in which nothing but a cancel can happen is terminal |
| `WorkflowLiveness.MaximalRunsAgree` | components/workflow/src/replay.ts:145-165 | total correctness: a run that was not canceled and has nothing left to do is terminal, holds exactly the steps of the direct run under what was reported, completed with its result if and only if that run returned, and otherwise failed with its error |
| `SchedulerTable.JobDb.EnqueueInternal` | components/scheduler/src/facade.ts:117-183 | a job is inserted unless one with the same idempotency key exists, whose id is then returned; a new one is due at `runAt`, else `runAfter` from now or at once if that is negative, else at once, and may fail as often as asked, by default an action once and a mutation four times |
| `SchedulerTable.JobDb.FireCallback` | components/scheduler/src/facade.ts:212-224 | one callback job with the outcome and the context, if the job has a callback |
| `SchedulerTable.JobDb.ClaimJob` | components/scheduler/src/modules.ts:115-135 | a claim succeeds exactly on a pending job and starts its lease |
| `SchedulerTable.JobDb.CompleteJob` | components/scheduler/src/modules.ts:155-232 | success, retry with a backoff, or dead letter at the budget or on an error that must not be retried; the callback is inserted in the same transaction; a job that is not in progress is left alone |
| `SchedulerTable.JobDb.ReclaimExpired` | components/scheduler/src/modules.ts:512-572 | each job of the scanned batch counts one attempt and is pending again if it is a mutation with budget left, else dead-lettered with its callback |
| `SchedulerTable.JobDb.CancelIfPending` | components/scheduler/src/facade.ts:256-260 | a pending job is canceled and its callback fired, any other job is left alone |
| `SchedulerTable.JobDb.VisitChildren` | components/scheduler/src/facade.ts:272-283 | the inner loop of the cascade: every child not visited before is visited and, if pending, canceled with its callback |
| `SchedulerTable.JobDb.Cancel` | components/scheduler/src/facade.ts:255-285 | on any parent graph, cycles included, the cascade ends and cancels exactly the pending jobs among the id and its transitive descendants, inserts exactly one callback for each of these that has one, and changes no other row |
| `SchedulerRuns.StepMoves` | components/scheduler/src/modules.ts:115-232 | in any step a row stays, is claimed, succeeds, fails with its attempt counted, or is canceled, and its identity never changes |
| `SchedulerRuns.ClaimsWithinBudget` | components/scheduler/src/modules.ts:189-232 | over any mix of failures, expired leases, late completions and cancels a job is claimed at most `maxFailures` times (once if that is zero), and every claim is accounted for by an attempt, a success or the claim in progress |
| `SchedulerRuns.TerminalAbsorbs` | components/scheduler/src/modules.ts:115-177 | a terminal row never changes again and is never claimed again |
| `SchedulerRuns.SweptActionIsNeverReclaimed` | components/scheduler/src/modules.ts:544-570 | an action that the lease sweep took is failed from then on and never claimed again |
| `SchedulerRuns.ReclaimedOnlyByReport` | components/scheduler/src/modules.ts:155-232 | an action in progress is claimed again only if a retryable failure of that very claim was reported with budget left, before any sweep took it |
| `SchedulerRuns.CanBeClaimedAgainIff` | components/scheduler/src/modules.ts:189-232 | a job in progress, its lease expired or not, can still be claimed again if and only if its budget allows one more failure |
| `SchedulerRuns.ExpiredActionClaimedAgain` | components/scheduler/src/modules.ts:155-158 | a run in which an action outlives its lease, its failure is reported before the sweep, and it is claimed again: the report does not look at the lease |
| `SchedulerRuns.CallbackExactlyOnce` | components/scheduler/src/facade.ts:212-224 | a terminal job with a callback has exactly one callback row, which carries its outcome and context; any other job has none |
| `SchedulerRuns.EveryClaimAccounted` | components/scheduler/src/modules.ts:115-232 | the invariant behind the retry budget, over every run |
| `SchedulerRuns.StepKeepsCallbacks` | components/scheduler/src/modules.ts:155-232 | every step keeps callbacks and terminal jobs one to one |
| `SchedulerEffects.SubmitTakesEffect` | components/scheduler/src/facade.ts:117-183 | over runs: a submitted job is as its caller asked and no other row changes, unless its key is in use, and then nothing does |
| `SchedulerEffects.DefaultBudget` | components/scheduler/src/facade.ts:160-170 | without a budget of its own an action is claimed once at most and a mutation four times |
| `SchedulerEffects.ClaimIsLeased` | components/scheduler/src/modules.ts:115-135 | a claim is safe from the sweep for thirty seconds, and changes nothing but state and lease |
| `SchedulerEffects.ReportTakesEffect` | components/scheduler/src/modules.ts:155-232 | a reported value, or the error of the last attempt, reaches the job's one callback as it was reported, in every later state; a failure that may be retried is counted with its error and makes the job due exactly the backoff later |
| `SchedulerEffects.CallbackIsDue` | components/scheduler/src/facade.ts:212-224 | the callback of a job that has just ended is pending and due at once |
| `SchedulerEffects.SweepTakesEffect` | components/scheduler/src/modules.ts:512-572 | a swept job has its attempt counted with the lease as its error: a mutation with budget left is due at once, and the callback of any other is told, for good |
| `CronCatchUp.Tick` | components/scheduler/src/modules.ts:335-447 | the bounded computation of a tick gives what stepping one occurrence at a time gives: what to fire, the new anchor and the next run |
| `CronCatchUp.TickInterval` | components/scheduler/src/modules.ts:345-390 | the same for a fixed interval, by division instead of stepping |
| `CronCatchUp.TickCron` | components/scheduler/src/modules.ts:391-447 | the same for a calendar, with four queries instead of stepping |
| `CronCatchUp.FireFrom` | components/scheduler/src/modules.ts:419-437 | the loop of `fireAll`: the oldest missed occurrences, all of them or the first thousand |
| `CronCatchUp.NextRunIsLeast` | components/scheduler/src/crons.ts:154-158 | the next run is the least occurrence strictly after the given time |
| `CronCatchUp.MissedIsExact` | components/scheduler/src/modules.ts:335-343 | the missed occurrences are exactly those after the anchor and not after now, in order |
| `CronCatchUp.TickIsExact` | components/scheduler/src/modules.ts:335-447 | the new anchor is the greatest occurrence up to now (or the old anchor), and the next run is the least occurrence after now |
| `CronCatchUp.ChosenMeans` | components/scheduler/src/modules.ts:345-447 | what each policy fires of the occurrences since the anchor: `skip` the only one, `fireOnce` the last one, `fireAll` the first thousand |
| `CronCatchUp.NextAfterClockStepBack` | components/scheduler/src/modules.ts:345-401 | with a clock that stands before the anchor nothing is missed, and the next run is the least occurrence after now if and only if no occurrence lies after now and up to the anchor; for a fixed interval it therefore never is |
| `CronCatchUp.TicksTileTime` | components/scheduler/src/modules.ts:299-305 | across any number of ticks, late or early, the intervals accounted for join without gap or overlap, so that the phase never drifts |
| `CronCatchUp.FiredOnceAtMost` | components/scheduler/src/modules.ts:306-310 | across ticks the fires are strictly increasing and are occurrences of the schedule |
| `CronCatchUp.FireAllFiresAll` | components/scheduler/src/modules.ts:371-386 | under `fireAll` every occurrence is fired if and only if no backlog exceeded the cap |
| `CronKeys.KeyInjective` | components/scheduler/src/modules.ts:468-472 | the key of a fired occurrence determines cron name and fire time, whatever characters the name has |
| `CronCadence.CronDb.EnqueueCadenceJob` | components/scheduler/src/crons.ts:197-211 | a cadence job carries its own id in its arguments |
| `CronCadence.CronDb.Tick` | components/scheduler/src/modules.ts:318-487 | a tick of the job the row names, or of one that does not know its id, enqueues a keyed work job for each fired occurrence, moves the anchor and names a new cadence job; any other tick changes nothing |
| `CronCadence.CronDb.DropUnregistered` | components/scheduler/src/crons.ts:251-261 | the rows of crons that are not registered go, and exactly their pending cadence jobs are canceled |
| `CronCadence.CronDb.ReconcileEntry` | components/scheduler/src/crons.ts:263-368 | a new cron is started, a changed one restarted from now, an unchanged one kept and its chain restarted only if it is dead |
| `CronCadence.CronDb.ReconcileCrons` | components/scheduler/src/crons.ts:236-369 | boot: unregistered crons are dropped, then the registered ones are reconciled in order |
| `CronRuns.RunOk` | components/scheduler/src/crons.ts:236-369 | in every run each cron's row names a cadence job of its own, and no idempotency key is carried by two jobs |
| `CronRuns.OnlyCanonicalTicks` | components/scheduler/src/modules.ts:323-329 | of all cadence jobs a run has made for a cron, the tick of the one its row names has an effect, and the tick of any other leaves every row as it was |
| `CronRuns.EachTickOnce` | components/scheduler/src/modules.ts:323-329 | a cadence job fires and reschedules at most once, however often it is retried or reclaimed |
| `CronRuns.ChainStopsOnlyByFailure` | components/scheduler/src/crons.ts:355-367 | between boots a chain can only stop because its cadence job failed for good or was canceled |
| `CronRuns.AfterBoot` | components/scheduler/src/crons.ts:236-369 | after a boot the crons are the registered ones, each with its registered schedule and target and exactly one cadence job whose tick would count, which is live |
| `CronRuns.BootCancelsDropped` | components/scheduler/src/crons.ts:251-261 | a boot cancels the pending cadence job of every cron that is not registered any more |
| `CronDue.BootCancelsExactly` | components/scheduler/src/crons.ts:251-326 | of the cadence jobs that rows named before, a boot cancels exactly the pending ones whose cron was dropped or has another schedule or target, and leaves all others as they are |
| `CronRuns.RebootIsIdempotent` | components/scheduler/src/crons.ts:331-368 | with the registry unchanged and every chain live, another boot leaves the job table as it is and changes at most catch-up policies |
| `CronRuns.PolicyEditTakesEffect` | components/scheduler/src/crons.ts:328-367 | a changed catch-up policy reaches the row if and only if the cron is new, its schedule or target changed, the policy did not change, or the chain is live; otherwise the row is written back with the old policy |
| `CronRuns.WorksOnce` | components/scheduler/src/modules.ts:468-474 | enqueuing the work jobs of a tick never gives one key to two jobs, and adds no other keys |
| `CronRuns.WorkCarriedIff` | components/scheduler/src/facade.ts:134-138 | enqueueing one fire gives it a work job with the row's function and arguments if and only if no job has its key, or the one that has it already has that function and these arguments |
| `CronFires.CarriedIffFoundClear` | components/scheduler/src/modules.ts:468-474 | over any run, whatever the clock and the app's own keys: a fire has a work job with the target its row had if and only if, when it was fired, its key was free or the job under it already had that target |
| `CronFires.FiredExactlyOnce` | components/scheduler/src/modules.ts:468-487 | over crashes, edits, removals and reboots, whatever the clock and the app's own keys: one job has the key of each occurrence fired, and it has the target of the fire exactly for the fires that found their key clear; if the app keeps off the cron's keys, a key is in use if and only if its occurrence was fired; if no boot anchors the cron before one of its fires, the fires are strictly increasing in time; with both, every fire has a work job with its target |
| `CronFires.ClockForwardSuffices` | components/scheduler/src/crons.ts:278-326 | no boot anchors a cron before one of its fires as long as the clock does not step back between boots and ticks |
| `CronFires.RefiresIff` | components/scheduler/src/modules.ts:335-447 | from any reachable state whose fires so far are strictly increasing, some tick fires the cron at or before a time it was fired at already if and only if its next run, computed from its anchor, is not after all of its fires |
| `CronFires.RefiredAfterStepBack` | components/scheduler/src/crons.ts:309-326 | a run without clash of keys that needs the condition on anchors: a cron is edited under a clock that stepped back behind its last fire, the occurrence is fired again, and the edited target gets no job |
| `CronFires.ClashTakesFire` | components/scheduler/src/facade.ts:134-138 | a run with anchors ahead that needs the condition on keys: a job the app submitted under the key takes the fire, the cron's target gets no job, and the anchor moves on |
| `CronFires.WorkJobsUnique` | components/scheduler/src/facade.ts:134-138 | no two jobs ever share the key of an occurrence, whatever keys the app itself uses |
| `CronDue.NextTickIsDue` | components/scheduler/src/modules.ts:476-487 | over every run, the job a cron's row names is a cadence tick that, until a failure or an expired lease moves it, is due at the first occurrence of the row's schedule after the row's anchor |
| `CronDue.TickAnchorsExactly` | components/scheduler/src/modules.ts:335-447 | a tick that counts leaves the anchor at the last occurrence up to now, or where it was if there is none |
| `CronDue.TickFiresByPolicy` | components/scheduler/src/modules.ts:335-447 | what a tick of a run fires is what the row's policy picks from the occurrences since the row's anchor |
| `CronDue.BootAnchors` | components/scheduler/src/crons.ts:263-368 | after a boot a registered cron is anchored where it was if its schedule and target are the same, and otherwise at the boot |
| `CronDue.NewWorkIs` | components/scheduler/src/modules.ts:468-474 | a fire that finds its key free inserts one job: the row's function and arguments, the fire's key, due at the fire time |
| `CronDue.FiresAreDue` | components/scheduler/src/modules.ts:468-474 | over every run, until a failure or an expired lease moves it, the work job of a fire that found its key free is due at the fire time |
| `SchedulerDriver.DriverLoop.Iterate` | components/scheduler/src/driver.ts:108-134 | a wake starts a pass, or leaves a mark for the pass in flight |
| `SchedulerDriver.DriverLoop.EndPass` | components/scheduler/src/driver.ts:174-184 | a marked pass goes round again; an unmarked one sets the timer to the earliest future job unless the driver is stopped |
| `SchedulerDriver.DriverLoop.Finally` | components/scheduler/src/driver.ts:122-131 | a wake that fell between the last check and this point starts another pass |
| `SchedulerDriver.DriverLoop.Start` | components/scheduler/src/driver.ts:220-233 | starting clears the stop flag and wakes |
| `SchedulerDriver.DriverLoop.Stop` | components/scheduler/src/driver.ts:234-251 | stopping sets the flag and clears the timer |
| `SchedulerDriver.StepKeepsInv` | components/scheduler/src/driver.ts:96-185 | every interleaving of commits, notifications, timers, passes, stops, starts and crashes keeps the invariant that a commit the loop has not seen is on its way or marked |
| `SchedulerDriver.NoLostWake` | components/scheduler/src/driver.ts:96-185 | whenever the driver is started, idle, without an undelivered notification, and no pass since its last peek has thrown before a commit, its timer is set to the smallest due time of a pending job, or there is neither, also after backlogs larger than a batch and after throws behind a commit |
| `SchedulerDriver.TimerAfterThrowIff` | components/scheduler/src/driver.ts:122-131 | the other case, exactly: after such a throw that nothing has woken the driver since, pending jobs and timer are those just before the throw, so the timer is right if and only if it was right then |
| `SchedulerDriver.ThrownPeekStrands` | components/scheduler/src/driver.ts:96-106 | a run in which it was not: if the first peek throws, whatever jobs are pending have no timer and no wake to come |
| `SchedulerDriver.StoppedStaysQuiet` | components/scheduler/src/driver.ts:76-94 | a stopped driver sets no timer and, once idle, stays idle until it is started |
| `TriggerLog.ReadLog` | packages/runtime-embedded/src/runtime.ts:830-931 | a read makes progress and returns, in order, exactly the table's changes after the cursor up to the point it reports; a read with limit zero only peeks at the bound |
| `TriggerLog.WholeCommits` | packages/runtime-embedded/src/runtime.ts:869-897 | a scan that hit its limit is cut to whole commits, or, if it holds one commit only, completed to all of it |
| `TriggerLog.WindowStable` | packages/runtime-embedded/src/runtime.ts:835-843 | what lies at or below the stable bound does not change as the log grows |
| `TriggerLog.CutToByteBudget` | components/triggers/src/driver.ts:330-359 | the longest prefix of whole commits that fits the budget, or the first commit alone, and where the cursor may advance to |
| `TriggerLog.CutIsWindow` | components/triggers/src/driver.ts:313-329 | the cut loses nothing: the batch is everything of the table between the cursor and where it will advance, and that is further than the cursor was |
| `TriggerPass.CursorTable.Init` | components/triggers/src/modules.ts:59-69 | insert or return the existing row |
| `TriggerPass.CursorTable.Advance` | components/triggers/src/modules.ts:88-100 | compare-and-set: the cursor moves and the failures are cleared only if the caller's idea of it is current |
| `TriggerPass.CursorTable.Fail` | components/triggers/src/modules.ts:115-133 | a failure is counted, and the eighth in a row pauses the trigger |
| `TriggerPass.CursorTable.PauseWith` | components/triggers/src/modules.ts:143-149 | a running trigger is paused with the reason; the first reason stays |
| `TriggerPass.TriggerDriver.RecordDelivery` | components/triggers/src/driver.ts:233-241 | the breaker counts deliveries per window and trips above the limit |
| `TriggerPass.TriggerDriver.EnsureCursor` | components/triggers/src/boot.ts:98-115 | an existing row is used as it is; a new one starts at zero or at the bound peeked before it is inserted |
| `TriggerPass.TriggerDriver.ReadAndDeliver` | components/triggers/src/driver.ts:173-220 | one turn of the drain: the cursor moves strictly forward past what was just delivered, or stays where it is and the trigger is paused or backs off |
| `TriggerPass.TriggerDriver.RunOnePass` | components/triggers/src/driver.ts:153-224 | one attempt ends however the log grows; what was delivered successfully is exactly the table's changes between the old and the new cursor, in order, each once; if nothing failed, the log up to the bound at the start is drained |
| `TriggerRuns.RunOk` | components/triggers/src/driver.ts:153-224 | with any number of drivers, each is entitled to the advance it asks for, over every run |
| `TriggerRuns.NothingSkipped` | components/triggers/src/modules.ts:71-100 | in every reachable state, with failures, crashes, pauses, resumes and stale drivers, every change of the table after the initial cursor and up to the persisted one was in a batch whose handler succeeded |
| `TriggerRuns.CursorNeverMovesBack` | components/triggers/src/modules.ts:88-100 | the persisted cursor never moves back and the row is created once |
| `TriggerRuns.NeverSkipsIff` | components/triggers/src/driver.ts:170-181 | nothing is ever skipped if and only if the configured batch size is not zero |
| `TriggerRuns.ZeroBatchSkips` | components/triggers/src/driver.ts:170-181 | with a batch size of zero a read is a peek, and the cursor moves over a change that nobody was given |
| `TriggerRuns.PausedAfterEightFailures` | components/triggers/src/modules.ts:115-133 | the failure count is the number of failures since the cursor last moved or was resumed, and a running trigger has fewer than eight |
| `TriggerRuns.RowEffects` | components/triggers/src/modules.ts:59-149 | what each step of a run does to the cursor row: where a new row starts, when an advance moves it, what a failure, the breaker and a resume leave, and that nothing else touches it |
| `AuthzRoles.ExpandRole` | components/authz/src/roles.ts:21-33 | the walk with a shared visited set ends on any graph and returns, and leaves visited, what the specification says |
| `AuthzRoles.ExpandFresh` | components/authz/src/roles.ts:21-33 | an inner call returns exactly the patterns of the roles it newly visited, and leaves nothing reachable from these unvisited |
| `AuthzRoles.ExpandIsUnion` | components/authz/src/roles.ts:21-33 | called with an empty visited set, it returns exactly the union of the direct patterns of all roles reachable through `inherits`, cycles and diamonds included |
| `AuthzPermissions.CheckRole` | components/authz/src/roles.ts:11-19 | a role grants a permission exactly if one of its expanded patterns matches it |
| `AuthzPermissions.LookupAgreesIff` | components/authz/src/effective-permissions.ts:15-20 | for roles without colons, looking up the candidate keys agrees with `roleGrants` on every configuration if and only if the permission has one colon, or several with a wildcard between the first two |
| `AuthzPermissions.TestsAgreeIff` | components/authz/src/effective-permissions.ts:15-20 | the same condition, pattern by pattern |
| `AuthzPermissions.TestsCompared` | components/authz/src/roles.ts:11-19 | what the two tests ask of a pattern: equal or wildcard parts, compared with the first two parts of the permission, or with its first part and all the rest |
| `AuthzIndex.AuthzDb.CanDo` | components/authz/src/context.ts:30-47 | the lookup of the candidate keys in the scope, then globally |
| `AuthzIndex.AuthzDb.AssignRole` | components/authz/src/functions.ts:30-38 | succeeds exactly for a proper scope, an authorised caller and a role that expands within the limit; then exactly the assignment and the role's patterns are added, otherwise nothing changed |
| `AuthzIndex.AuthzDb.RevokeRole` | components/authz/src/functions.ts:40-51 | on success the assignment is gone and every other is as before, the user keeps a pattern in the scope exactly if a role still assigned there expands to it, and no other user or scope changes; otherwise nothing changed |
| `AuthzIndex.AuthzDb.BootstrapFirstAdmin` | components/authz/src/functions.ts:59-86 | succeeds exactly for a role that grants the manage permission while no one holds it; then exactly the assignment and its patterns are added globally |
| `AuthzIndex.AuthzDb.WriteScope` | components/authz/src/effective-permissions.ts:52-65 | the rows of one user in one scope become exactly the desired ones, and no other row changes |
| `AuthzIndex.AuthzDb.ReconcileEffectivePermissions` | components/authz/src/effective-permissions.ts:77-122 | if the stored hash is current nothing changes; otherwise everything is rolled back if a role expands too far, and else the index is rebuilt group by group, keys that collide included; from arbitrary index contents it is then exactly what the assignments entitle to if the keys that occur are apart |
| `AuthzIndex.AuthzDb.Rebuild` | components/authz/src/functions.ts:53-57 | the same behind the manage permission |
| `AuthzRebuild.RebuildRefinesIff` | components/authz/src/effective-permissions.ts:87-114 | for any assignments and any index contents: the rebuilt index is what the assignments entitle to, for every role table and whatever row is read first, if and only if no user and scope with assignments shares its grouping key with another user or scope that occurs in the assignments or in the index |
| `AuthzRebuild.CollidingRebuild` | components/authz/src/effective-permissions.ts:89-100 | a rebuild that goes wrong under every role table: of two users and scopes whose keys collide the first gets the patterns of both roles and the second gets none |
| `AuthzRebuild.KeysDistinct` | components/authz/src/effective-permissions.ts:94-94 | the grouping key tells users and scopes apart if user ids and scope types have no NUL character |
| `AuthzRuns.IndexRefinesAssignments` | components/authz/src/functions.ts:29-86 | in every reachable state, across role edits and reboots, the index holds exactly the patterns that assignments plus inheritance entitle to, as long as assigned users and scopes have different keys whenever the index is rebuilt |
| `AuthzRuns.NextRebuildIff` | components/authz/src/effective-permissions.ts:87-114 | from a state whose index is right that condition is exact: every rebuild is right if and only if no two users and scopes with assignments share a key |
| `AuthzRuns.NoNulSuffices` | components/authz/src/effective-permissions.ts:94-94 | it holds over every run whose assignments have no NUL character in user ids and scope types |
| `AuthzRuns.CanIsRoleCheck` | components/authz/src/context.ts:21-47 | `can` answers what checking every role assigned in the scope or globally with `roleGrants` would answer |
| `AuthzRuns.ScopesWith` | components/authz/src/context.ts:52-62 | the ids of exactly the scopes of the kind in which the index holds a candidate key for the user |
| `AuthzRuns.ScopeListedIff` | components/authz/src/context.ts:52-62 | a scope counts exactly if a role assigned in it grants the permission |
| `AuthzRuns.BootstrapOnlyOnce` | components/authz/src/functions.ts:65-74 | once any assigned role grants the manage permission, bootstrapping changes nothing |
| `AuthzRuns.CallsTakeEffect` | components/authz/src/functions.ts:29-86 | in a run a grant or revocation that is entitled to succeed does exactly what it says to its own user and scope, and any other call changes nothing |
| `AuthzRuns.CanAfterCall` | components/authz/src/functions.ts:29-86 | after a revocation `can` answers for the user by the roles that are left, so that what only the revoked role granted is gone; after a grant it answers yes to what the role grants |
| `NotificationDigest.DigestDb.FlushGroup` | components/notifications/src/digest.ts:111-148 | one flush: nothing if the group is not due or the template throws; else all of the group's items are claimed and dropped, or combined into one email under one receipt |
| `NotificationDigest.DigestDb.PeekDueGroups` | components/notifications/src/digest.ts:89-109 | exactly the groups that have a scanned, unflushed item older than the category's window |
| `NotificationDigest.OldestFirstSorts` | components/notifications/src/digest.ts:125-127 | the items are a permutation of the group, oldest first |
| `DigestRuns.NoItemLostOrMailedTwice` | components/notifications/src/digest.ts:60-87 | over every run, template throws, clock steps and any addresses and receipts included, each buffered item is unflushed, or in exactly one combined email, or dropped, and only one of these, unless a flush that claimed it found its key among the receipts, and then it is none of them |
| `DigestRuns.LostIffKeyFound` | components/notifications/src/digest.ts:111-148 | an item is lost in a run if and only if a flush that had it in its group found its key among the receipts |
| `DigestRuns.OrderlyLosesNothing` | components/notifications/src/digest.ts:144-144 | no flush ever finds its key if the clock does not step back, addresses have no colon, and the app keeps off the digests' keys |
| `DigestRuns.StepBackLoses` | components/notifications/src/digest.ts:122-148 | a run that loses an item because the clock stepped back, the other two conditions holding |
| `DigestRuns.ColonLoses` | components/notifications/src/digest.ts:144-144 | a run that loses an item because an address has a colon, the other two conditions holding |
| `DigestRuns.AppReceiptLoses` | components/notifications/src/modules.ts:59-62 | a run that loses an item because the app has a receipt under the digest's key, the other two conditions holding |
| `DigestRuns.FlushEffect` | components/notifications/src/digest.ts:111-148 | what one flush does from any state: nothing before an item of the group has waited an hour, a day or a week, if the template throws, or without a channel; else it claims exactly the group, and drops it, sends one email made from exactly its items and records the key, or does neither if it finds the key in use |
| `DigestRuns.DroppedByPreference` | components/notifications/src/digest.ts:132-137 | behind every dropped item, in every run, is a flush that claimed it and at which the email preference of the oldest item's user was off |
| `DigestRuns.MailsAreDigests` | components/notifications/src/digest.ts:122-145 | every combined email is made from items of one recipient and category, oldest first, by that category's template |
| `DigestRuns.DigestKeyInjective` | components/notifications/src/digest.ts:144-144 | for addresses without colons the receipt key determines recipient, category and oldest time |
| `DigestRuns.LostIffKeyCollides` | components/notifications/src/modules.ts:59-62 | any flush, due or not, with or without a channel, keeps every item accounted for if and only if it does not get as far as finding its key among the receipts |
| `DigestRuns.OthersPreferenceDecides` | components/notifications/src/digest.ts:130-137 | every item of a flush, whoever its user is, is dropped exactly if the oldest item's user has the email turned off |
| `AuthSessions.SessionDb.MintSession` | components/auth/src/functions.ts:68-93 | a session with two fresh tokens, of which only the hashes are stored, and its three deadlines |
| `AuthSessions.SessionDb.Refresh` | components/auth/src/functions.ts:314-377 | the five outcomes of a presented refresh token and the row each leaves |
| `AuthSessions.SessionDb.ResolveSession` | components/auth/src/functions.ts:156-165 | the session whose current access token it is |
| `AuthSessions.SessionDb.SignOut` | components/auth/src/functions.ts:302-306 | exactly that session is deleted |
| `AuthSessions.SessionDb.GetUserId` | components/auth/src/functions.ts:308-312 | the user of the session while its access token has not expired |
| `AuthSessions.ChainsHold` | components/auth/src/functions.ts:331-342 | over every run the refresh tokens of a session form a strictly growing chain, no token is in two chains, and a live session stores the hashes of the last two |
| `AuthSessions.PresentedToken` | components/auth/src/functions.ts:314-377 | the newest token rotates or is refused as expired; the one before it is refused unchanged within grace and ends the session after it; older ones, and all tokens of an ended session, change nothing |
| `AuthSessions.PairsWork` | components/auth/src/functions.ts:68-93 | over every run, an access token that was handed out is accepted for a user if and only if it is the last one handed out for a live session, the session was minted for that user, and the time returned with it has not passed; each refresh slides the refresh deadline and leaves the fixed one |
| `AuthSessions.SignOutEnds` | components/auth/src/functions.ts:302-306 | over every run, signing out with an access token that was handed out ends exactly its session if the token is the last one of a live session, and otherwise changes nothing |
| `AuthSessions.EndedStaysEnded` | components/auth/src/functions.ts:359-373 | an ended session never comes back and gets no further token |
| `AuthSessions.AccessEnds` | components/auth/src/functions.ts:320-342 | however often a session is refreshed, no access token of it is accepted later than its fixed lifetime plus one access period after it was minted |

## Left out

- Early rejection of `Promise.all`, racing branches and steps that are started and never awaited: the order of step
  calls is then not a function of the outcomes seen.
- Duplicate delivery of workflow callbacks after a reclaimed lease: `_stepDone` and `_compensateDone` check the
  generation but not the state, so the claims about workflows take each callback as delivered once.
- WorkflowMachine.WorkflowDb.Start: `start` itself never sets the run's own callback; the model lets a run have one,
  because every later mutation honours the field.
- A forward step that is in progress when a run is canceled stays pending in the journal and is never compensated.
- Start and completion times of workflows and steps, `recoveryAttempts`, and the texts of compensation errors, which
  are kept as structure.
- Retries between the claim and the report of a workflow's job: they are the scheduler's, and proved there.
- WorkflowTheorems.NeverStranded: this and the other results about runs take `_advance` and `_compensate` to succeed
  within their budget of four failures; `WorkflowDeadLetter` says what becomes of a run in which one of them does not.
- SchedulerTable.JobDb.ReclaimExpired: which of the expired jobs a sweep's index scan returns is the scan's choice; the
  theorems hold for every choice.
- SchedulerTable.JobDb.VisitChildren: newly visited ids are queued after the inner loop instead of inside it, which
  nothing can observe.
- SchedulerTable.JobDb.EnqueueInternal: the ambient parent is always undefined today, so the born-canceled branch is
  not modelled; rows with a parent enter the table through the runs.
- Which driver holds a lease: completions carry no holder, so a late one can complete a newer claim; the runs include it.
- Cron expressions, time zones and the parser; cadence jobs enqueued before job ids were embedded appear only in the
  single tick, not in the runs; a cadence tick enqueued by the app itself.
- The test seams of the drivers, the sweep timer, and failures while the runtime delivers notifications.
- TriggerPass.TriggerDriver.RunOnePass: one attempt alone on its cursor; other drivers are in `TriggerRuns`.
- The coalescing of trigger wakes (the same shape as the scheduler's), its bound of 1000 rounds, and the beat.
- Document bodies in log changes: a change is its revision, its table and its length; the previous revision is not read.
- TriggerRuns.NothingSkipped: handler attempts that failed may have had effects of their own.
- Collisions of `configHash`: the runs assume that a boot with other roles has another hash.
- AuthzRuns.IndexRefinesAssignments: assumes that keys are apart at every rebuild, as `AuthzRuns.NextRebuildIff` shows
  it must. Which of several rows under one key is read first is any of them.
- Relations and row policies of the authorization component.
- Delivery of queued messages, webhooks, topics, push tokens and the in-app inbox.
- NotificationDigest.DigestDb.PeekDueGroups: the bound of 200 scanned rows only delays groups; which rows are scanned
  is an input.
- Session rows from before hashing, sign-in itself, one-time codes, passkeys, external identities and their crypto.
- AuthSessions.AccessEnds: assumes a session lifetime that is not negative, fresh tokens and a hash without collisions.
- AuthSessions.SessionDb.Refresh: the token lookups are by value; that they are index lookups of constant cost is not
  modelled.
- Fractional times and integers beyond 2^53.

# Yufeng: recoverable runs, verified

Yufeng runs short-lived executors against a central server. This project models the parts where something can be
half done when a process dies, and proves what holds in every run:

* **The recoverable saga.** An executor walks a plan of steps. Around every side effect it writes intent, effect and
  settlement receipts to a server journal. It can die, stall, lose its lease or be cancelled at any point, and another
  executor takes over. `SagaJournal` and `SagaTables` are the journal, `Brain` the work item with its lease and its
  settlement gates, `Attempts` the executor as a program counter, `Protocol` everything together with the log of actions
  and compensators executed. `AttemptInvariants`, `ProtocolSteps` and `ProtocolEvents` hold the inductive invariant,
  `SagaTheorems`, `SagaDeeds` and `SagaCancel` what follows from it, `SagaWitnesses` runs that end where one would not
  expect, and `RecoverableRun` is ExecuteRecoverable itself, as loops, running against that protocol with arbitrary
  interference before every call.
* **The fleet** (`Fleet`). All work items and workers: lease epochs, fencing, capacity.
* **The host command executor.** A write-ahead journal, one pass over the steps, restores in reverse order.
  `HostFiles` is the file system and what undoing a journal gives, `HostRuns` every legal move across any number of
  process lives, `HostExecutor` the executor as a class, `CommandRows` the server's side.
* **Evidence budgets.** `EvidenceSplit` divides an approved budget among units, `EvidenceBundle` fills one unit's bundle,
  `EvidenceFlow` is an approval from its decision to what all units send.
* **Smaller cores.** `Seccomp` (the filter generator with an interpreter for its target), `JsonExtract` (object
  extraction against the JSON grammar), `RunPaging` (paging against a plain filter), `AccessSessions` (single-flight
  token renewal under interleaving).

`Text` has the option type and Go's view of strings.

## How the model stands to the code

* One server transaction is one atomic step on rows. A row's digest columns hold the digested value itself: SHA-256 is
  taken as injective. Lease ids are arbitrary strings; fencing rests on epochs.
* A snapshot is the saga row with its step rows. The supervisor's broker answers a bind of the plan it already caches from
  its cache (agents/runtime/broker.go:132-149); so does the model.
* String sizes are UTF-8 byte counts, blankness is Unicode white space, integers are unbounded where the code cannot
  reach a width.
* Actions, compensators, the context, the network, clocks and process deaths are parameters: functions of the operation's
  number, or events of a run.
* `Step.Budget` is nil, as the run binary passes it, so a guard depends on what the guard digest covers.

## What the code does not do

Each of these is a lemma, or a clause of a contract, with the exact condition:

* An attempt left to itself with working compensators normally ends in `ready`, `compensated` or `outcome_unknown`. It does
  not when the first step that does not simply succeed meets another guard digest than its own, fails with an error text
  over 2048 bytes (the failure receipt is refused), or finds the context ended: the saga stays `running`
  (`ExecuteRecoverable`, `SticksExactly`; runs in `LongErrorStalls`, `ChangedGuardStalls`, `ContextStalls`).
* A cancelled saga settles only through a receipt that comes after the cancel. An attempt that binds after the cancel, with no
  outcome unknown, settles it if and only if it finds a started, compensatable effect not yet compensated
  (`CancelSettlesExactly`); in every run a finished pass leaves `compensated` if and only if the journal took a receipt
  since the cancel (`PassSettlesExactly`). With nothing left to undo the saga stays `cancelling`, or `running` if it was
  bound after the cancel, and from there nothing but the deadline closes the item, or another cancel if nothing was ever
  started (`StrandedForGood`; a run in `CancelStrands`).
* A step declared `safe` or `idempotent` can be executed after its compensator, by an executor that stalled between its
  effect receipt and its action. Exactly the replayable steps can (`UndoneForGood`, `RedoneExactly`).
* A work item can succeed with a step undone: an executor whose context ends compensates what it did and records no failure,
  and the next one goes on from there (`SucceedsUndone`). Without an ended context nothing is undone in an item that
  succeeds (`SuccessMeansKept`).
* docs/api.md:1553 says a failed or cancelled run only becomes terminal once every compensatable step is settled. Deadline
  expiry closes the run as failed without asking the journal. A run ends failed or cancelled with an effect left standing if
  and only if it was closed by an expiry that found one standing (`UnsettledExactly`, with a run in `DeadlineBypassesGate`).
  The model follows the code; `SettlementGates` names the exception.
* A lease holder's receipt is refused as an invalid transition in one case: it would undo a step whose own outcome is
  unknown. That needs a cancel that overwrote `outcome_unknown` in the saga row (`ReceiptsAreAccepted`). It happens
  (`UndoOfUnknownIsRefused`), and leaves the saga `cancelling`.
* The host restores the permission bits of a file, and 0600 for a file whose permission bits were all clear. A rollback is
  exact if and only if every touched file had a non-zero mode of permission bits alone (`RolledIsExact`,
  `ZeroModeIsNotRestored`).
* A host step whose output is over 16384 bytes of JSON succeeds on the host, but its receipt is refused: Execute returns the
  error and the command stays `running`, then and in every later execution. An execution in which everything else works
  returns nil if and only if every output still to come fits (`Executor.Execute`, `WorkingEnding`). The output of a
  replacement echoes the target as it was spelled, so a path with enough detours is enough (`LongSpellingSticks`).
* An empty command returns nil without a receipt, and a command whose deadline has passed is refused without one
  (`Executor.Execute`).
* On finding an effect or a restore without settlement, Execute declares the outcome unknown. It returns nil if and only if
  the server has itself seen the boundary; after a crash between save and report it has not, and refuses
  (`Executor.Abandon`, `TakesExactly`).
* A second Execute of a command with a primitive that is not allowed writes an intent over its failure, which the server
  refuses (`FailWithoutEffect`). Every run of a command follows the server's transition relation if and only if all its
  primitives are allowed (`RefusedRestarts`, `PathExactly`).
* An object inside a code fence comes out if and only if a fence follows it, or no further fence stands before it or in its
  strings (`ExtractionFromFence`).

## Model

| member | source | states |
|---|---|---|
| `SagaJournal.BindKeeps` | lib/brain/agent_run_saga.go:20-67 | binding keeps the journal coherent and takes nothing back |
| `SagaJournal.AdvanceKeeps` | lib/brain/agent_run_saga.go:111-164 | an admitted receipt moves its row forward only; exactly `outcome_unknown` makes a row unknown |
| `SagaJournal.RecordKeeps` | lib/brain/agent_run_saga.go:69-213 | whatever receipt arrives, rows and state column stay coherent and nothing recorded is undone |
| `SagaJournal.RecordTakesAnEdge` | lib/brain/agent_run_saga.go:111-164 | a receipt that changes anything changes the row it names by one edge of the two written-out phase graphs, fills in a missing guard, and leaves every other row |
| `SagaJournal.EveryEdgeIsTaken` | lib/brain/agent_run_saga.go:111-164 | every such edge is taken by a receipt, as long as the outcome is not unknown |
| `SagaJournal.SagaLeqTransitive` | lib/brain/agent_run_saga.go:69-213 | "no receipt was taken back" composes over receipts |
| `SagaTables.RunSaga.BindRunSaga` | lib/brain/agent_run_saga.go:20-67 | the row updates of a bind compute `Bind`; a refusal changes nothing |
| `SagaTables.RunSaga.RefreshRunSagaState` | lib/brain/agent_run_saga.go:260-309 | the scan over the step rows computes `StateOf` |
| `SagaTables.RunSaga.RecordRunSaga` | lib/brain/agent_run_saga.go:69-213 | the row updates of a receipt compute `Record`; a refusal changes nothing |
| `Brain.StepKeepsInv` | lib/brain/agent_run.go:788-808 | every transaction on a work item keeps its invariant and its journal monotone, whatever the lease holder sends |
| `Brain.SettlementGates` | lib/brain/agent_run.go:841-991 | in every run: succeeded only with every action succeeded and no cancel; failed or cancelled only when settled, unknown, unbound, or past the deadline; the run's own state is the one item, saga and cancel stand for, in both directions |
| `Brain.CompletesExactly` | lib/brain/agent_run.go:841-896 | an open item completes if and only if the lease is live, the deadline not reached, every step succeeded, nothing unknown and no cancel; otherwise nothing changes |
| `Brain.FailsExactly` | lib/brain/agent_run.go:913-991 | an open item fails if and only if the lease is live, the deadline not reached and nothing is left to undo, and ends cancelled if and only if it was cancelled and not unknown |
| `Brain.CancelsExactly` | lib/brain/agent_run.go:273-323 | a cancel closes an open item if and only if no effect was started; otherwise the item stays with its lease holder, cancelling |
| `Brain.ExpiresExactly` | lib/brain/run_expire.go:32-50 | an open item expires from its deadline on, and not before |
| `Brain.GrantsExactly` | lib/brain/agent_run.go:1076-1187 | an open item is granted if and only if it was never leased or its lease has run out, and its deadline is not reached; the grant is live under the next epoch |
| `Brain.LeaseLasts` | lib/brain/agent_run.go:1160-1187 | a grant, or an extension under a live lease before the deadline, lasts for exactly 900 seconds from then |
| `Brain.ExtendsExactly` | lib/brain/agent_run.go:659-770 | a lease is extended if and only if it is live and the deadline not reached; otherwise nothing changes |
| `Brain.JournalIsMonotone` | lib/brain/agent_run_saga.go:106-187 | over a whole run of the server no phase moves back, no unknown changes, no effect flag clears |
| `Brain.ClosedIsFinal` | lib/brain/agent_run.go:273-323 | a closed item never changes again: no lease, receipt, cancel or second outcome |
| `Brain.OnlyExpiryLeavesStanding` | lib/brain/run_expire.go:32-50 | of all transactions that close an item as failed or cancelled, exactly expiry leaves an effect standing, and does if and only if one is |
| `Brain.UnsettledExactly` | lib/brain/run_expire.go:32-50 | in every run an item ends failed or cancelled and unsettled if and only if an expiry found it open with an effect standing |
| `Brain.DeadlineBypassesGate` | lib/brain/run_expire.go:44-50 | a concrete run that ends failed with a started, compensatable effect left standing |
| `AttemptInvariants.ThinkKeeps` | agents/runtime/saga.go:135-228 | both loop heads keep what the executor knows about its place and the step in focus |
| `AttemptInvariants.ReadyIsAdmitted` | agents/runtime/saga.go:164-206 | a receipt the executor is about to send is admitted by the journal and is news to it, with one exception |
| `AttemptInvariants.AfterReplyKeeps` | agents/runtime/saga.go:123-263 | an answered call keeps what the executor knows, for every call it makes |
| `ProtocolSteps.MoveKeepsInv` | agents/runtime/saga.go:106-269 | server, newcomer, attempt and deed moves each keep the protocol invariant |
| `ProtocolEvents.NextKeepsInv` | agents/runtime/saga.go:106-269 | every event, crash, late call, lease loss or cancel included, keeps the protocol invariant |
| `SagaTheorems.ReachedInv` | agents/runtime/saga.go:106-269 | the protocol invariant holds in every reachable state |
| `SagaTheorems.AtMostOnce` | agents/runtime/saga.go:135-212 | over all attempts, never-replay actions and compensators run at most once, and nothing runs before its effect boundary is on record |
| `SagaTheorems.OnlyDeclaredReplays` | agents/runtime/saga.go:298-305 | only steps declared `safe` or `idempotent` can run twice; any other declaration means never |
| `SagaTheorems.PrefixAlways` | agents/runtime/saga.go:135-212 | rows read succeeded, then at most one other, then untouched, though the server checks no order |
| `SagaTheorems.PhasesOnlyAdvance` | lib/brain/agent_run_saga.go:111-187 | between any two points of a run phases only advance, unknown stays, effect flags stay |
| `SagaTheorems.PlanAccepted` | agents/runtime/saga.go:271-296 | a built plan is accepted at bind if and only if it has 1 to 128 steps with distinct, non-blank keys of at most 128 bytes |
| `SagaTheorems.PlanSays` | agents/runtime/saga.go:271-305 | the plan built from steps says of each its number, name, compensator and replay declarations |
| `SagaTheorems.GuardKeepsOut` | agents/runtime/saga.go:331-341 | in every run no action was executed whose step is dangerous outside a sandbox or over its memory limit |
| `SagaTheorems.GuardDecides` | agents/runtime/saga.go:174-181 | in every run a step with an effect on record may run under the guard on record, and a step that failed without one may not |
| `SagaTheorems.GuardTellsApart` | agents/runtime/saga.go:318-328 | two attempts see the same guard of a step if and only if nothing the digest covers differs |
| `SagaTheorems.SeenCancelStops` | agents/runtime/saga.go:164-206 | an attempt that sees a cancel in an answer starts no further step |
| `SagaTheorems.ReceiptsAreAccepted` | agents/runtime/saga.go:164-206 | in every reachable state the live holder's receipt is refused if and only if its text is too large or it undoes an unknown step, the latter only after a cancel |
| `SagaWitnesses.UndoOfUnknownIsRefused` | agents/runtime/saga.go:216-245 | for every one-step plan with a compensator and not to be replayed, a run in which the action was done, its outcome recorded unknown, the run cancelled, and the live holder's compensation intent refused |
| `SagaTheorems.CompensationDiscipline` | agents/runtime/saga.go:216-269 | within one attempt compensators run in strictly decreasing order after all actions, only for started and not yet compensated effects |
| `SagaTheorems.CompletePass` | agents/runtime/saga.go:216-269 | an attempt that returns its cause unwrapped leaves every eligible step up to `last` compensated in the journal, and no started effect above unless its context ended |
| `SagaTheorems.ResultDecidesState` | agents/runtime/saga.go:106-269 | for an uncancelled saga: nil means `ready`, a compensated failure `compensated`, ErrOutcomeUnknown `outcome_unknown`, an ended context or a changed guard `running` |
| `SagaTheorems.FailedCompensatorStands` | agents/runtime/saga.go:253-262 | a holder that returns a compensator's error leaves it on record as failed, in a step whose compensator may be tried again |
| `SagaTheorems.CancelledPass` | agents/runtime/saga.go:216-269 | a holder that finished its pass for a failure or a cancel leaves every started effect compensated |
| `SagaCancel.CancelledColumn` | lib/brain/agent_run_saga.go:190-198 | over any run after a cancel the state column is as the cancel left it until the journal takes a receipt, and the one the rows stand for from then on |
| `SagaCancel.PassSettlesExactly` | lib/brain/agent_run_saga.go:190-198 | in every run a finished pass over a cancelled saga leaves `compensated` if and only if the journal took a receipt since the cancel, `cancelling` otherwise |
| `SagaCancel.StrandedForGood` | lib/brain/agent_run.go:286-296 | a cancelled saga with everything undone and a column that does not say so stays that way through every continuation; only the deadline closes it, or another cancel if nothing was ever started |
| `SagaWitnesses.CancelStrands` | lib/brain/agent_run.go:286-296 | for every one-step plan without a compensator, a run that gets there |
| `SagaDeeds.RecordedWasDone` | agents/runtime/saga.go:179-206 | in every run a step recorded as succeeded was executed, and one recorded as compensated was compensated |
| `SagaDeeds.SuccessMeansDone` | lib/brain/agent_run.go:841-896 | a work item that succeeded had every step executed, never-replay steps exactly once |
| `SagaDeeds.SuccessMeansKept` | agents/runtime/saga.go:161-163 | if no executor saw its context end, nothing was undone in an item that succeeded |
| `SagaWitnesses.SucceedsUndone` | agents/runtime/saga.go:161-163 | for every two-step plan whose first step has a compensator, a run that succeeds with that step undone after an ended context |
| `SagaWitnesses.ContextStalls` | agents/runtime/saga.go:161-163 | its first half: the executor undoes what it did and leaves the saga running |
| `SagaDeeds.UndoneForGood` | agents/runtime/saga.go:216-269 | in every run only a step declared replayable is executed after its compensator |
| `SagaWitnesses.RedoneExactly` | agents/runtime/saga.go:179-206 | of the one-step plans with a compensator, exactly the replayable ones have a run in which the action comes after the compensator |
| `SagaWitnesses.RedoneAfterUndo` | agents/runtime/saga.go:179-206 | that run, ending in an item that failed and settled |
| `SagaDeeds.FailureMeansUndone` | lib/brain/agent_run.go:913-991 | failed or cancelled other than by deadline, nothing unknown: every executed action of a compensatable step had its compensator executed, and after it if the step is not to be replayed |
| `RecoverableRun.Journal.Exchange` | agents/runtime/broker.go:132-149 | one journal call under arbitrary interference: answered, or the attempt ends with a journal error |
| `RecoverableRun.BuildSagaPlan` | agents/runtime/saga.go:271-296 | the loop with its `seen` map builds the plan, and refuses if and only if a name is empty or repeated |
| `RecoverableRun.MarkOutcomeUnknown` | agents/runtime/saga.go:343-349 | declares the outcome unknown; undisturbed it succeeds |
| `RecoverableRun.CompensateStep` | agents/runtime/saga.go:218-266 | one turn of the compensation loop, branch by branch |
| `RecoverableRun.CompensateRecoverable` | agents/runtime/saga.go:216-269 | the loop walks the modelled program counters down to the result; undisturbed it ends as the rows it found say, cancelled or not, and refreshes the state column if and only if it undid something |
| `RecoverableRun.ExecuteStep` | agents/runtime/saga.go:135-212 | one turn of the forward loop: under calm it goes on, settles, is barred by its guard with the step failed before its effect, or sticks, exactly as `FateOf` says |
| `RecoverableRun.ExecuteRecoverable` | agents/runtime/saga.go:106-214 | from every reachable state, whatever interferes, the code walks the protocol; undisturbed it ends ready with nil, compensated or unknown, if and only if no step sticks; a step that may not run ends failed without its effect, and the steps above keep their rows; on a saga cancelled before the bind it ends as its rows say |
| `RecoverableRun.CancelSettlesExactly` | agents/runtime/saga.go:127-129 | with no outcome unknown, an attempt on a cancelled and unsettled saga settles it if and only if it found a started effect not yet compensated |
| `RecoverableRun.SticksExactly` | agents/runtime/saga.go:157-202 | an attempt sticks if and only if the first step that does not simply succeed is a sticking one: a changed guard, an ended context, an error too long |
| `RecoverableRun.LongErrorSticks` | agents/runtime/saga.go:192-199 | a concrete one-step plan that sticks on an error of 2049 characters |
| `SagaWitnesses.LongErrorStalls` | agents/runtime/saga.go:192-199 | for every one-step plan and every error over 2048 bytes, a run that ends in a journal error with the effect on record, nothing compensated and the saga running |
| `SagaWitnesses.ChangedGuardStalls` | agents/runtime/saga.go:157-160 | for every replayable one-step plan, a run whose second attempt finds another guard on record and stops, the saga running |
| `Fleet.EpochStep` | lib/brain/agent_run.go:1160-1187 | an event raises an item's epoch by one if it grants that item, and never otherwise; a lease changes only with its epoch |
| `Fleet.GrantsIncrease` | lib/brain/agent_run.go:1160-1187 | grants of one item carry strictly increasing epochs, whatever happens between |
| `Fleet.Fencing` | lib/brain/agent_run.go:788-796 | after a newer grant no extend, report, complete or fail under an older epoch is ever accepted |
| `Fleet.ClosedStaysClosed` | lib/brain/agent_run.go:1076-1085 | a closed item is never leased again |
| `Fleet.OnlyGrantsAdd` | lib/brain/agent_run.go:1057-1060 | only a grant to a worker adds to its active leases, and adds one |
| `Fleet.ActiveExactly` | lib/brain/agent_run.go:1057-1060 | the count that capacity is held against is the number of items leased to the worker whose lease has not run out |
| `Fleet.GrantWithinCapacity` | lib/brain/agent_run.go:1035-1066 | no grant takes a worker above its capacity; if an approved raise has expired, the newest one is no longer approved and the capacity is the one from before it, and nothing else of the row changed |
| `Fleet.RevertedTakesBack` | lib/brain/agent_run.go:1043-1056 | the row a grant attempt works with: the newest expired raise taken back, or the row as it was |
| `Fleet.CapacityHolds` | lib/brain/agent_run.go:1035-1066 | unless its row is rewritten, a worker's active leases stay within every cap on its capacity over any run, raises running or running out included |
| `Fleet.ExpiredChange` | lib/brain/agent_run.go:1043-1045 | the newest approved change that has expired, if any |
| `Fleet.WorkTable.Query` | lib/brain/agent_run.go:1076-1085 | the oldest candidate that is not excluded |
| `Fleet.WorkTable.LeaseWork` | lib/brain/agent_run.go:998-1066 | the retry loop grants the first item, by age, that can be granted and admits the worker: exactly that item changes hands, under the next epoch and within the capacity left after an expired raise was taken back; otherwise nothing fits, or capacity is used up and an expired raise is taken back |
| `CommandRows.CommandTable.ReportStep` | lib/brain/command.go:78-158 | the loop over receipts with its counting query computes `Report`; a refused batch changes nothing |
| `CommandRows.CountsGiveStatus` | lib/brain/command.go:137-151 | the four counts give the status the receipts stand for |
| `CommandRows.ReportMoves` | lib/brain/command.go:101-136 | an accepted batch moves each step at most once along the transition relation |
| `CommandRows.HistoriesExactly` | lib/brain/command.go:194-211 | the phases of a step follow the transition relation if and only if they begin one of seven written-out lives |
| `CommandRows.ReportsExactly` | lib/brain/command.go:78-136 | a single receipt is taken if and only if the lease is live, the command unfinished, the step one of its own, output, error and references within their limits, and the phase repeats or follows the one on record; then exactly that row changes |
| `CommandRows.SettledIsFinal` | lib/brain/command.go:94-96 | a succeeded command, or one with an unknown outcome, never changes again |
| `CommandRows.FailureIsNeverUndone` | lib/brain/command.go:143-151 | a step that failed or was compensated never lets its command succeed later |
| `HostFiles.RolledIsExact` | cmd/yufeng-host/executor.go:69-74 | putting back is exact if and only if every touched file had a non-zero mode of permission bits alone |
| `HostFiles.ZeroModeIsNotRestored` | cmd/yufeng-host/executor.go:605-624 | a concrete file of mode zero that comes back with mode 0600 |
| `HostFiles.RestoreCaptured` | cmd/yufeng-host/executor.go:542-563 | putting back a captured target undoes a replacement, or the lack of one, up to its mode |
| `HostFiles.WayBackEffect` | cmd/yufeng-host/executor.go:216-219 | recording the effect boundary keeps the way back to the original files |
| `HostFiles.WayBackRestored` | cmd/yufeng-host/executor.go:419-433 | settling the highest restore keeps the way back |
| `HostRuns.ReachedInv` | cmd/yufeng-host/executor.go:168-262 | the invariant of journal, files, backups and counts holds after every sequence of moves |
| `HostRuns.AtMostOnce` | cmd/yufeng-host/executor.go:177-237 | over any number of process lives each effect and each restore runs at most once, and none is recorded without having run |
| `HostRuns.JournalIsPath` | lib/brain/command.go:194-211 | every sequence of legal moves of an allowed command, and so every run of `Executor.Execute`, takes each step along the server's transition relation |
| `HostRuns.PathExactly` | cmd/yufeng-host/executor.go:264-282 | all runs of a command are such paths if and only if its primitives are allowed |
| `HostRuns.AlwaysAWayBack` | cmd/yufeng-host/executor.go:401-441 | at every moment of every crash schedule, putting back what the journal lists, highest first, gives the original files |
| `HostRuns.RollbackIsInverse` | cmd/yufeng-host/executor.go:401-441 | with nothing left to put back the files are as before the command, several replacements of one path included |
| `HostRuns.SuccessApplies` | cmd/yufeng-host/executor.go:343-360 | when every step succeeded every target holds the artifact |
| `HostRuns.ModesAreKept` | cmd/yufeng-host/executor.go:69-74 | in every run no file of before is missing, and every file is as it was or has the permission bits it had before; a new one, or one that had none, has 0600 |
| `HostRuns.RefusedRestarts` | cmd/yufeng-host/executor.go:264-282 | for every refused command, a run that fails a step, restarts, and writes an intent over the failure, outside the relation |
| `HostExecutor.Accepts` | lib/brain/command.go:101-136 | in step with the journal, the server takes a valid next phase if and only if its output fits |
| `HostExecutor.TakesExactly` | lib/brain/command.go:194-211 | the server takes an unknown outcome if and only if the command is open, the output fits and it has seen the boundary |
| `HostExecutor.CatchesUp` | lib/brain/command.go:101-136 | a server that missed the last receipt takes it when it is sent again if and only if its output fits, and is in step from then on |
| `HostExecutor.ReportedAgain` | cmd/yufeng-host/executor.go:190-194 | reporting a step found succeeded again puts a server that missed it in step, leaves any other as it was, and is refused only for an output too large |
| `HostExecutor.IntentAgain` | cmd/yufeng-host/executor.go:196-205 | a recorded intent reported again is taken whether or not the server has seen it, and leaves it in step |
| `HostExecutor.RefusalTaken` | cmd/yufeng-host/executor.go:264-282 | the server takes a refusal if and only if it is open and has seen at most the intent; the command is failed then |
| `HostExecutor.WorkingEnding` | cmd/yufeng-host/executor.go:168-240 | with everything else working an execution never fails, and goes through if and only if every output fits its receipt |
| `HostExecutor.LongSpellingSticks` | cmd/yufeng-host/executor.go:343-360 | a command whose arguments decode and whose steps work, and whose output is too large because of how its target is spelled |
| `HostExecutor.Executor.Save` | cmd/yufeng-host/journal.go:52-58 | a save is atomic; its error may come after it took hold |
| `HostExecutor.Executor.Prepare` | cmd/yufeng-host/executor.go:293-328 | what is prepared is the state of the target at this moment, with its backup in place |
| `HostExecutor.Executor.ExecutePrepared` | cmd/yufeng-host/executor.go:330-399 | a finished replacement leaves the artifact in the target; a failed one may have |
| `HostExecutor.Executor.RestoreFile` | cmd/yufeng-host/executor.go:605-624 | a finished restore leaves the file restored; a failed one may have |
| `HostExecutor.Executor.Compensate` | cmd/yufeng-host/executor.go:401-441 | the reverse loop leaves nothing to put back, or stops; in step it finishes whenever restores work, and the command ends failed, otherwise unknown |
| `HostExecutor.Executor.SettleAndCompensate` | cmd/yufeng-host/executor.go:242-262 | failure receipt, then restores; in step with restores that work the cause comes back, and it comes back only with nothing left to put back; a lost report stops it before any restore, unless its error is the cause itself |
| `HostExecutor.Executor.FailWithoutEffect` | cmd/yufeng-host/executor.go:264-282 | nothing but the journal changes; with working saves and reports the command ends failed if and only if the server takes the refusal, and otherwise the server's error comes back and its rows stay |
| `HostExecutor.Executor.Abandon` | cmd/yufeng-host/executor.go:180-187 | a boundary without settlement becomes an unknown outcome; with working saves and reports nil comes back if and only if the server takes it, and the server's error otherwise |
| `HostExecutor.Executor.RunStep` | cmd/yufeng-host/executor.go:177-237 | one turn of the loop at a step not yet succeeded, from any journal: at its intent it is reported and performed, a started one is given up, a settled one refused with nothing changed; a server that missed at most the last receipt does so afterwards |
| `HostExecutor.Executor.ReportAgain` | cmd/yufeng-host/executor.go:190-194 | a step found succeeded is reported again, and the loop goes on if and only if, with working reports, the server takes it |
| `HostExecutor.Executor.Execute` | cmd/yufeng-host/executor.go:151-240 | from any journal and under any failures: only legal moves, and the server misses at most the last receipt of a journal to be gone on with; the cause comes back only with the files put back; a journal whose next step is settled is left as it is. A reliable execution, the first or one that resumes after a crash, with the last receipt seen or missed, ends on host and server as `Ending` computes from the first step to do: in step with nil and succeeded, the cause and failed whenever restores work, or stopped and running for an output too large; an effect found without settlement ends unknown, with nil if and only if the server saw it |
| `EvidenceSplit.ShareCovers` | lib/brain/approval_service.go:234-237 | a unit's share covers its handles if and only if the budget covers all handles |
| `EvidenceSplit.SharesFit` | lib/brain/approval_service.go:234-234 | shares rounded down never add up to more than the whole |
| `EvidenceSplit.DecideEvidence` | lib/brain/approval_service.go:191-245 | splits exactly when rows are unambiguous, cover the handles and the budget has a byte each; the requests partition the handles within the budget |
| `EvidenceBundle.FitStructuredEvidence` | cmd/yufeng-edge/traffic_review_runtime.go:356-387 | for any encoder, the first form that fits along full, values blanked from the end, fields dropped from the end; nothing only if none fits |
| `EvidenceBundle.DropsLast` | cmd/yufeng-edge/traffic_review_runtime.go:371-385 | no field is dropped while a value remains anywhere |
| `EvidenceBundle.EachIsLossier` | cmd/yufeng-edge/traffic_review_runtime.go:371-385 | each form of the chain carries no more than the one before |
| `EvidenceBundle.LossierExactly` | cmd/yufeng-edge/traffic_review_runtime.go:371-385 | form r of the chain, written out: the last r values blanked, and after all of them the last fields gone |
| `EvidenceBundle.Collect` | cmd/yufeng-edge/traffic_review_runtime.go:253-291 | the loop over a handle's fields sends what the recursive definition says |
| `EvidenceBundle.CollectedOk` | cmd/yufeng-edge/traffic_review_runtime.go:256-291 | a block stays within its share and sends whole fields or forms of the chain, of allowed fields only |
| `EvidenceBundle.SendsAllThatFits` | cmd/yufeng-edge/traffic_review_runtime.go:239-291 | if the allowed fields of a document fit its share whole, all of them are sent, whole and in order |
| `EvidenceBundle.AnswersSendDocuments` | cmd/yufeng-edge/traffic_review_runtime.go:239-301 | what an answer sends for each handle is what its document says, field by field |
| `EvidenceBundle.ShareHolds` | cmd/yufeng-edge/traffic_review_runtime.go:253-254 | whatever earlier handles used, the next share is at least an equal split of the whole budget |
| `EvidenceBundle.BuildEvidenceBundle` | cmd/yufeng-edge/traffic_review_runtime.go:175-301 | within the request's and the model's budget, a fragment for every handle, each share an equal split or more; every block sends, of the allowed fields in order, each field whole or in the first form that fits what is left of the share, and leaves one out only if none does; refused only for a document that cannot be sent; always answered when every method fits an equal split |
| `EvidenceFlow.EdgeBudgetTest` | cmd/yufeng-edge/traffic_review_runtime.go:193-199 | a split request passes the edge's budget test if and only if its unit holds at most 30720 handles |
| `EvidenceFlow.CaseBudgetSuffices` | lib/brain/approval_service.go:416-420 | with the five handles and 40960 bytes an approval has at most, neither the split nor the edge refuses for lack of bytes, and every handle is left at least 6144 |
| `EvidenceFlow.EndToEnd` | lib/brain/approval_service.go:191-245 | answered requests that partition the handles send, in all, no more than the approved bytes, a fragment for every handle and only allowed fields |
| `EvidenceFlow.AnswerApproval` | lib/brain/approval_service.go:191-245 | decision and units' answers together: within the approved bytes, every approved handle covered, only allowed fields, every share at least its unit's equal split and one byte; always answered when every method fits |
| `Seccomp.BuildFilter` | agents/runtime/sandbox_linux.go:108-122 | the generated program has length 5 + 2n and returns the verdict for every system call |
| `Seccomp.FilterIsCorrect` | agents/runtime/sandbox_linux.go:108-122 | for every list, architecture and call: kill on a wrong architecture, allow exactly listed numbers, EPERM otherwise, with jumps in range |
| `Seccomp.LengthField` | agents/runtime/sandbox_linux.go:122-122 | the 16-bit length is right exactly up to 32765 numbers |
| `JsonExtract.FindEnd` | agents/runtime/loop.go:438-468 | the byte loop finds the end the scanner's definition gives |
| `JsonExtract.ExtractJSONObject` | agents/runtime/loop.go:423-473 | the code computes `Extract` |
| `JsonExtract.NeverClosed` | agents/runtime/loop.go:434-473 | without a closing brace after the first opening one the text comes back as it is |
| `JsonExtract.CutShort` | agents/runtime/loop.go:469-471 | of an object that is cut short everything up to the last closing brace comes out |
| `JsonExtract.ValueIsNeutral` | agents/runtime/loop.go:443-467 | scanning any JSON value, with any nesting and escapes, leaves depth and string state as they were |
| `JsonExtract.ExtractionInvertsEmbedding` | agents/runtime/loop.go:423-473 | from any prefix without a brace and any suffix, no fence, exactly the object comes out |
| `JsonExtract.ExtractionFromFence` | agents/runtime/loop.go:425-433 | inside a code fence the object comes out if and only if a fence follows it, or none stands before it or in its strings |
| `RunPaging.ScopeCoversRun` | lib/brain/agent_run.go:1616-1647 | true if and only if every binding is covered and at least one decides |
| `RunPaging.SeenExactly` | lib/brain/agent_run.go:1616-1647 | a run is seen if and only if no binding is blank, the caller sees every asset, case, unit and release it is bound to, and it is bound to one of those |
| `RunPaging.BindingKinds` | lib/brain/agent_run.go:1362-1379 | a binding says its kind before the colon; without one it names an asset |
| `RunPaging.WiderScopeSeesMore` | lib/brain/agent_run.go:1616-1647 | a wider scope hides nothing |
| `RunPaging.TokenRoundTrip` | lib/brain/ratelimit.go:180-202 | every offset survives its token |
| `RunPaging.ListRuns` | lib/brain/agent_run.go:162-214 | for the trimmed state filter, a page is all the visible rest, or `limit` visible runs and the offset of the next one; the limit is 50 by default and 200 at most |
| `RunPaging.MatchingExactly` | lib/brain/agent_run.go:162-190 | the state query keeps the order and exactly the rows in the trimmed state asked for, all of them for a blank filter |
| `RunPaging.VisibleExactly` | lib/brain/agent_run.go:190-200 | what is listed is, in order, exactly the rows the scope covers |
| `RunPaging.TokensAdvance` | lib/brain/agent_run.go:197-200 | each token lies further down the table |
| `RunPaging.PagingRefinesFilter` | lib/brain/agent_run.go:162-214 | following tokens yields exactly the matching visible runs in order; every page but the last is full |
| `RunPaging.ListAll` | lib/brain/agent_run.go:162-214 | the client loop over the tokens ends with exactly those runs |
| `AccessSessions.AccessSession.RefreshRejected` | agents/runtime/loop_agent.go:144-169 | renews only the rejected generation; succeeds exactly when it was renewed already or now, and then holds both new tokens; otherwise both stay, and the session fails exactly when new tokens could not be kept |
| `AccessSessions.AccessSession.FailLocked` | agents/runtime/loop_agent.go:177-190 | the failure is set and the channel closed the first time only |
| `AccessSessions.AccessSession.Failure` | agents/runtime/loop_agent.go:103-113 | makes the channel once and returns the one there is |
| `AccessSessions.NextKeepsInv` | agents/runtime/loop_agent.go:75-190 | every step of every caller keeps the session invariant |
| `AccessSessions.SingleFlight` | agents/runtime/loop_agent.go:75-169 | in any interleaving no token is renewed twice, no function is called a third time, one renewal at most is under way, the channel is closed once if and only if the session failed |
| `AccessSessions.NoRenewalAfterFailure` | agents/runtime/loop_agent.go:147-149 | after the failure no renewal starts and the channel is not closed again |
| `AccessSessions.NoCallAfterFailure` | agents/runtime/loop_agent.go:75-102 | once the session has failed no function is invoked any more |
| `AccessSessions.LastRenewalIsHeld` | agents/runtime/loop_agent.go:144-169 | in any interleaving the session holds the access and the refresh token of the last renewal, or those it began with |
| `AccessSessions.WaitersReuse` | agents/runtime/loop_agent.go:150-153 | a caller whose token was renewed meanwhile calls again with the new one |

## Left out

- Cause, error text, receipt references and audit entries of the saga rows are checked for size only; nothing reads them
  back except as text.
- Investigation and traffic-case work items, which bypass the saga gate.
- Run budgets, capability tokens and model generations; whether a run has model effects is a parameter of a cancel.
- One run has one work item, as the deadline and cancel transactions assume; several items of one run are not modelled.
- RecoverableRun.ExecuteRecoverable: for a cancel that comes after the attempt bound its plan the end is not computed from
  the rows; `SagaCancel.PassSettlesExactly` says what such a pass leaves. Compensators that fail are covered by the protocol's
  theorems only.
- SagaTheorems.CompletePass: says nothing about effects above `last` when the context ended.
- Fleet.WorkTable.LeaseWork: the tries of one call are taken together; other transactions between them appear as other
  events of the fleet, where any item may be picked. Rows skipped because they are locked are not modelled.
- HostExecutor.Executor.Prepare: artifact download and verification, path allow lists and symlink checks are one outcome.
  A target comes as spelled and as cleaned; cleaning a path is an input.
- HostExecutor.Executor.ExecutePrepared: what a probe, a service call or a verification finds is an outcome; of its output
  only the size is modelled. Directories made on the way to a target and temporary files are not modelled; nobody else
  changes the files.
- HostExecutor.Executor.Execute: a new lease between two executions appears only as a server that takes receipts.
- HostExecutor.BoundedError: texts count by size, so a cut inside a multi-byte character is not modelled.
- EvidenceSplit.DecideEvidence: 64-bit overflow of budget times handles is not modelled; budgets are 40960 bytes.
- EvidenceBundle.BuildEvidenceBundle: vault access, document decoding and field validation are inputs; JSON encoding is
  an arbitrary function.
- JsonExtract.ExtractJSONObject: invalid UTF-8 is not modelled.
- RunPaging.TokenRoundTrip: base64 is taken as injective.
- AccessSessions.SingleFlight: renewals return fresh tokens. SetTokens, and the certificate renewal that calls it, are
  left out.
- SQL, transport, authentication, process hatching, Landlock, the installed system call list, and the Windows and Darwin
  variants.
- Artifact and audit paging, GuardWindowBad, the console and the command line clients.

# CoreLab reservations and agent, verified

This project models CoreLab's GPU reservation backend and the on-host agent it talks to, and proves what
their protocols promise. `dafny verify dfyconfig.toml` checks all of it.

Pure code is modelled by datatypes and functions. Code that updates state is modelled by classes and
methods, each proved equal to a function of the old state. The promises are then proved about those
functions, mostly over whole runs.

| part of the system | modules |
|---|---|
| reservation table, conflict matrix, create, preview, edit, cancel, transitions | `Reservations`, `Conflicts`, `ReservationService`, `Admission`, `ServiceRules`, `Sessions` |
| periodic tick, agent script events, suspended cancel, and runs of all of them together | `Scheduler`, `Ticks`, `Protocol`, `Lifecycles`, `RowHistory`, `TickEffects`, `Runs`, `ServiceRuns`, `AuditRuns`, `ScriptEnds`, `CapacityRuns`, `ConstraintRuns`, `ClosingRuns`, `CancelRuns`, `CancelOutcomes` |
| bounded log tail | `LogTail` |
| earliest-window sweep and recommendation | `Sorting`, `Sweep`, `Recommender`, `RealQuestions` |
| authorized_keys rewriting | `KeyLines`, `AuthorizedKeys` |
| sliding window and failure lock | `RateLimit` |
| agent caches, monitor, policy dispatcher, and their runs | `ServerCaches`, `Compliance`, `PolicyHandlers`, `ComplianceRuns`, `ComplianceMonitor`, `GraceRuns` |
| backend RPC correlation, agent script runner, backend and agent together | `AgentRpc`, `ScriptRunner`, `EndToEnd`, `RequestRuns`, `DoubleRuns` |

## How the system is modelled

- **Store.** A table of rows with dense ids (rows are never deleted), the audit log, and the execute requests
  queued so far. Instants are integer microseconds in the store and milliseconds in the limiter; the agent's
  monotonic clock is a real number.
- **Steps.** A service call, a tick or an agent event is one atomic step, because the code takes row and range
  locks or runs SERIALIZABLE. A cancel of a running script is split at its two awaits, so any number of them may
  interleave with everything else. Agent events may come late, twice, out of order, or never. A step that is not
  enabled changes nothing, so every sequence of steps is a run.
- **Queries.** Each phase of a tick visits the rows in an order the database chooses; results hold for every
  order. Servers, cards and account links are parameters of each call and may change between calls.
- **Agent.** Sync messages, capability changes, looks at GPUs and processes, and violations are steps in any order.

## Where the code does not do what it says, or what a caller may expect

- *A refused edit can be committed.* `modify_reservation` writes the new times before it validates them
  (reservation_service.py lines 1008 to 1040). The router turns the error into an HTTPException
  (api/v1/reservations.py lines 376 to 402) and the session dependency commits on that (db.py lines 61 to 63).
  Both outcomes are modelled. In either, every stack stays safe exactly when the peaks inside the edited row's
  window fit; committed, exclusive rows stay alone exactly when the edit did not ask for a clashing window.
- *Items of one batch are not checked against each other.* Exactly when they keep apart themselves does an
  accepted batch keep exclusive rows alone.
- *A lone shared reservation may exceed its card*, since an empty window skips the memory rule. Memory fits
  everywhere exactly when no single live row exceeds its card, and an admitted row breaks that exactly when its
  window is empty and it asks for more than the card.
- *The sweep's comment says that an ending and a starting interval at one instant net out cleanly.* They do not
  for one card: the card re-enters the free set while the second booking runs. Completeness holds regardless. For
  a one-card server the recommender's own questions are all answered soundly exactly when every coming end that
  another live row of the card covers is followed by a start within a minute. For all cards of any server asked for
  together, exactly when there is no coming instant at which each card is free or taken for free, not all are free,
  and for a minute nothing starts on any; for fewer cards than all, exactly when the first window the sweep believes
  in is covered. Two back-to-back hours on the only card are enough to be offered
  the second one, with no card in it.
- *The grace tracker documents continuous observation.* Nothing clears a timer when the violation goes away, so
  the grace counts from the first tick that ever observed the signature. It answers as documented exactly when no
  tick since then failed to observe it.
- *A public key whose text begins with a comment sign*, with its key type a later word, is accepted by the agent's
  push taken alone, written as a comment, and never seen again by push, revoke or read. The backend's own parser
  (services/ssh_key_helpers.py lines 30 to 53) lets no such key through to the agent.
- *A log tail limit of zero* keeps everything, because the slice from minus zero is the whole string. No caller
  passes zero; the default is 65536.
- *The runner's late kill goes by reservation id*, so it ends a script other than the cancelled one exactly when
  that one was cleaned up and a later real script of the reservation is live when the kill fires; that script's end
  is then reported as a kill only if it had been given a reason of its own.
- *The dispatch gate is called idempotent*, as a marked row is not dispatched again. The watchdog is the exception: a
  script runs twice only when a retry was committed before the backend handled any of its events, and then it can,
  the first run being over, because the agent's map is the only guard left.

## Model

| member | source | states |
|---|---|---|
| `CapacityRuns.RunKeepsCapacityExactly` | backend/corelab_backend/services/reservation_service.py:308-429 | over every run of creates, edits, cancels, group cancels, ticks, agent events and suspended cancels, with card sizes fixed: at every instant of every card, after every step, two or more live rows are all shared, fit the known memory and declare at most 100 percent compute, exactly when each step's own peaks fit |
| `CapacityRuns.StepKeepsCapacityExactly` | backend/corelab_backend/services/reservation_service.py:308-429 | one step keeps every stack safe exactly when the peaks inside the windows it writes fit; ticks, cancels and events always do |
| `CapacityRuns.RunKeepsCapacity` | backend/corelab_backend/services/reservation_service.py:687-770 | what is enough for callers to keep every run safe: items of one batch keep apart on a card, and a refused edit that is committed wrote no peak that does not fit |
| `ConstraintRuns.RunKeepsExclusiveApart` | backend/corelab_backend/services/reservation_service.py:366-387 | in every run in which each step's own peaks fit, an exclusive reservation never shares an instant of its card with another live one |
| `ConstraintRuns.RunFitsMemoryExactly` | backend/corelab_backend/services/reservation_service.py:374-375 | after every run in which each step's own peaks fit, the memory of all live rows at an instant fits the known card, lone rows included, exactly when no single live row exceeds its card |
| `Conflicts.WindowDominatesInstant` | backend/corelab_backend/services/reservation_service.py:308-340 | the key step: what is summed over a window is at least the stack at any instant in it, for count, exclusives, memory and compute |
| `Conflicts.WindowTotals` | backend/corelab_backend/services/reservation_service.py:397-429 | the sums the matrix takes over the queried rows are the totals over the table |
| `Conflicts.AdmittedRowIsSafe` | backend/corelab_backend/services/reservation_service.py:366-429 | a row the matrix admits keeps every instant of every card safe |
| `Conflicts.ExclusiveClashIsExact` | backend/corelab_backend/services/reservation_service.py:374-395 | the matrix reports an exclusive or mixed clash exactly when the row would share an instant with a row that forbids it |
| `Conflicts.SafeAtStarts` | backend/corelab_backend/services/reservation_service.py:397-429 | a table is safe at every instant exactly when it is at the finitely many starts of its rows |
| `Conflicts.CapacityKeepsExclusiveApart` | backend/corelab_backend/services/reservation_service.py:374-395 | a table whose stacks fit keeps exclusive rows apart |
| `Conflicts.MemoryFitsExactly` | backend/corelab_backend/services/reservation_service.py:374-401 | in a safe table memory fits every known card at every instant exactly when no live row asks for more than its whole card |
| `Conflicts.AdmittedBreaksMemoryExactly` | backend/corelab_backend/services/reservation_service.py:374-401 | an admitted row breaks that bound exactly when its window is empty and it asks for more than the whole card |
| `ServiceRules.MatrixAdmitsExactly` | backend/corelab_backend/services/reservation_service.py:366-429 | the matrix admits an item exactly when its window is empty, or it and all in the window are shared and the window's memory and compute leave room for it |
| `ServiceRules.MatrixReportsExactly` | backend/corelab_backend/services/reservation_service.py:366-394 | which of the four conflicts is reported, and with which sums of the window |
| `ServiceRules.ConflictNamesRows` | backend/corelab_backend/services/reservation_service.py:366-394 | a conflict names exactly the live rows of the window that stand in the way: all, those of the other mode, or those that declare a share |
| `Admission.LoneSharedRowExceedsCard` | backend/corelab_backend/services/reservation_service.py:374-375 | create accepts a lone shared row of 2000 MB for a card of 1000 MB |
| `ServiceRules.CreateAcceptsExactly` | backend/corelab_backend/services/reservation_service.py:623-730 | a batch is accepted exactly when it holds items, its script fits, each item keeps its times, its server's limit, a link that is the user's own, active and verified, and the matrix admits each item with a card |
| `ServiceRules.CreateErrorsAreTrue` | backend/corelab_backend/services/reservation_service.py:623-730 | the error create raises is true of the item it names, and what is looked at before it was in order |
| `ServiceRules.BatchIsStored` | backend/corelab_backend/services/reservation_service.py:732-770 | the rows stored read back as the items asked for, of the user and group, scheduled, with the script on the first or on all |
| `Admission.PreviewAgreesWithCreate` | backend/corelab_backend/services/reservation_service.py:497-620 | for every store, time and batch: create accepts exactly when its script, link and cardless rules pass and preview finds nothing, although one collects and the other fails fast in passes |
| `Admission.CreateErrorIsPreviewed` | backend/corelab_backend/services/reservation_service.py:669-730 | the time, length, card or conflict error create raises is one of the problems preview lists for that item |
| `Admission.CreateKeepsCapacity` | backend/corelab_backend/services/reservation_service.py:687-770 | an accepted batch whose items keep apart on each card keeps every stack safe |
| `Admission.CreateCapacityExact` | backend/corelab_backend/services/reservation_service.py:687-770 | for any accepted batch the stacks stay safe exactly when the finitely many new peaks fit |
| `Admission.CreateKeepsExclusiveApartExactly` | backend/corelab_backend/services/reservation_service.py:716-770 | an accepted batch keeps exclusive rows alone exactly when its own items do |
| `Admission.BatchDoubleBooks` | backend/corelab_backend/services/reservation_service.py:716-770 | items are not checked against each other: two exclusive items for one card and hour are accepted together |
| `ServiceRules.PreviewListsExactly` | backend/corelab_backend/services/reservation_service.py:497-620 | preview lists of each item exactly what is wrong with it, a conflict beside too great a length, and nothing more of an item whose times make no sense |
| `Admission.InsertedRowsPassChecks` | backend/corelab_backend/services/reservation_service.py:732-770 | the service's own checks imply the table's constraints for every row a batch inserts |
| `ServiceRules.EditSucceedsExactly` | backend/corelab_backend/services/reservation_service.py:958-1092 | an edit succeeds exactly for the owner of a scheduled row whose moved times keep the rules of a new reservation and whose script and trigger time fit; then the row is as asked and only it and one audit row change; rolled back, nothing does |
| `ServiceRules.EditErrorsAreTrue` | backend/corelab_backend/services/reservation_service.py:958-1092 | the error an edit raises is true of the row and the request, and what is looked at before it was in order |
| `ServiceRules.CancelSucceedsExactly` | backend/corelab_backend/services/reservation_service.py:800-878 | a cancel succeeds exactly for a live row, by its owner or an admin |
| `ServiceRules.GroupCancelExactly` | backend/corelab_backend/services/reservation_service.py:881-955 | a group is cancelled exactly when a row of it is live, the first live one is the actor's or the actor is an admin, and no script of it runs; then exactly its live rows are cancelled, and counted in one audit row |
| `Admission.ModifyCapacityExact` | backend/corelab_backend/services/reservation_service.py:1008-1092 | whatever becomes of an edit, refused and committed or not, every stack stays safe exactly when the peaks inside the edited row's window fit: memory, compute and exclusive use alike |
| `Admission.ModifyKeepsCapacity` | backend/corelab_backend/services/reservation_service.py:1008-1040 | cases a caller sees at once: an edit that succeeds, is rolled back, or asked for a clear window keeps every stack safe |
| `Admission.ModifyWithCommitExact` | backend/corelab_backend/services/reservation_service.py:1008-1092 | with the new times written first and a refusal committed, exclusive rows stay alone exactly when the edit does not ask for a window that clashes exclusively |
| `Admission.CommittedRefusalDoubleBooks` | backend/corelab_backend/db.py:50-67 | a concrete refused edit whose committed times double-book a card |
| `ConstraintRuns.EveryRowMeetsConstraints` | backend/corelab_backend/models/reservation.py:40-47 | in every run every row has its end after its start and its trigger time inside |
| `ServiceRuns.BookingIsStored` | backend/corelab_backend/services/reservation_service.py:623-770 | in every run a batch that keeps the rules is stored as asked and its rows keep their card, share and group for good; any other changes nothing |
| `ServiceRuns.EditTakesEffect` | backend/corelab_backend/services/reservation_service.py:958-1092 | in every run an edit that keeps the rules leaves the row as asked |
| `ServiceRuns.CancelTakesEffect` | backend/corelab_backend/services/reservation_service.py:800-878 | in every run a cancel of a live row by its owner or an admin cancels it, and any other changes nothing |
| `ServiceRuns.GroupCancelTakesEffect` | backend/corelab_backend/services/reservation_service.py:881-955 | the same for a group |
| `Runs.AuditReplaysEveryRow` | backend/corelab_backend/services/reservation_service.py:1141-1199 | in every run, folding the audit log from nothing gives each row's group, status and script status |
| `Runs.EveryMoveFollowsAnEdge` | backend/corelab_backend/services/reservation_service.py:86-103 | in every run each audited move goes along an allowed edge from the state the log had reached, and names that state truly |
| `Runs.TerminalIsForever` | backend/corelab_backend/services/reservation_service.py:818-835 | from any point of any run on, a terminal status and a terminal script status are never overwritten |
| `Runs.TimesFreezeOnceActive` | backend/corelab_backend/services/reservation_service.py:989-992 | once a row has left scheduled, its window, script and trigger time never change |
| `Runs.DispatchDiscipline` | backend/corelab_backend/services/reservation_scheduler.py:174-217 | in every run a row is marked dispatched at most once, its execute requests are more than 60 s apart, and all lie between its trigger time and its end |
| `TickEffects.TickDecidesEachRow` | backend/corelab_backend/services/reservation_scheduler.py:79-412 | one tick, in whatever orders the queries list the table, gives each row the fate that the row, its own audit rows and the moment decide: opened, closed as failed or completed, its script asked for, a stuck request settled, or nothing; and asks for its script exactly then |
| `TickEffects.DueScriptIsAskedFor` | backend/corelab_backend/services/reservation_scheduler.py:174-217 | a script that is due is asked for by the tick, once, and its row marked |
| `TickEffects.WatchdogActs` | backend/corelab_backend/services/reservation_scheduler.py:327-412 | a request a minute old: forgotten when a started event was audited, the row failed after three failed sends, and otherwise one more request where the account is there |
| `TickEffects.TickSparesOthers` | backend/corelab_backend/services/reservation_scheduler.py:79-412 | rows that have ended, are not due or wait for nothing stay as they are |
| `AuditRuns.StuckRequestIsSettled` | backend/corelab_backend/services/reservation_scheduler.py:327-412 | the same in every run, from the events handled instead of the audit log |
| `AuditRuns.LogTellsEachEventOnce` | backend/corelab_backend/services/reservation_scheduler.py:263-324 | in every run the log says a send failed, a script started or a cancel attempt failed exactly as often as that happened |
| `ScriptEnds.ScriptEndsAsReported` | backend/corelab_backend/services/script_lifecycle_service.py:333-345 | in every run a script counts as completed, failed or killed exactly when the finish that found it running said exit 0, another exit, or killed |
| `ScriptEnds.EndsOnce` | backend/corelab_backend/services/script_lifecycle_service.py:340-345 | at most one finish ever finds a row's script running |
| `ScriptEnds.ClosesAsReported` | backend/corelab_backend/services/reservation_scheduler.py:106-149 | in every run the tick that closes a row closes it as failed exactly when that finish said killed or a nonzero exit, and as completed otherwise |
| `Runs.SpacedSpan` | backend/corelab_backend/services/reservation_scheduler.py:341-346 | requests more than a minute apart span more than their number minus one minutes |
| `Runs.DispatchBound` | backend/corelab_backend/services/reservation_scheduler.py:327-412 | so n requests for one reservation need more than n - 1 minutes between its trigger time and its end |
| `Runs.NoRequestAfterStarted` | backend/corelab_backend/services/script_lifecycle_service.py:204-233 | after a started event was handled for a row no later step queues a request for it |
| `ConstraintRuns.NoRequestAfterEnd` | backend/corelab_backend/services/reservation_scheduler.py:174-217 | once a row has ended no later step queues a request for it |
| `Runs.MissedWindowNeverFires` | backend/corelab_backend/services/reservation_scheduler.py:430-436 | one tick after the whole window opens and closes the row without asking for its script |
| `ConstraintRuns.MissedWindowNeverFiresInRun` | backend/corelab_backend/services/reservation_scheduler.py:415-462 | the same inside any run, and nothing after that tick asks for the script either |
| `ClosingRuns.EveryClosingIsExplained` | backend/corelab_backend/services/reservation_scheduler.py:106-149 | in every run each audited closing has its reason in the log before it: completed only while the script has not failed or been killed, failed only after that or after three failed sends with no started event; the first dispatch finds the row active with no script status, and every retry finds it active and running, carries the count of failed sends plus one, and is at most the third |
| `ClosingRuns.TickExplains` | backend/corelab_backend/services/reservation_scheduler.py:327-412 | one tick, in any order of rows, keeps the log explained for every row |
| `RowHistory.TickKeepsSound` | backend/corelab_backend/services/reservation_scheduler.py:415-462 | one tick, in whatever order its queries list the rows, keeps replay, legality, spacing and the dispatch bound of every row |
| `CancelOutcomes.KilledCallCancels` | backend/corelab_backend/services/script_lifecycle_service.py:484-498 | in every run: once a killed finish was handled while a call was registered, its confirmation cancels the row, with its audit row, exactly when the row lives and the actor is its owner or an admin; otherwise it is refused and nothing changes |
| `CancelOutcomes.ConfirmationCancels` | backend/corelab_backend/services/script_lifecycle_service.py:484-498 | the same for any signalled call |
| `CancelOutcomes.KillReachesCall` | backend/corelab_backend/services/script_lifecycle_service.py:390-404 | a killed finish handled while a call is the registered one of its row leaves it signalled |
| `CancelOutcomes.CancelRegisters` | backend/corelab_backend/services/script_lifecycle_service.py:427-434 | a cancel of an active row whose script runs registers a call and replaces any earlier entry |
| `CancelOutcomes.OutcomesAreEarned` | backend/corelab_backend/services/script_lifecycle_service.py:434-498 | in every run a call has an outcome exactly when the step that gives it was taken |
| `CancelOutcomes.NoEndedCallIsRegistered` | backend/corelab_backend/services/script_lifecycle_service.py:497-498 | in every run no call that has ended is left in the registry |
| `CancelOutcomes.FailedAttemptsAreAudited` | backend/corelab_backend/services/script_lifecycle_service.py:442-482 | in every run a row's log holds one failed attempt for each of its calls that ended unreachable or timed out |
| `CancelRuns.CancelNeedsConfirmedKill` | backend/corelab_backend/services/script_lifecycle_service.py:409-498 | in every interleaving of any number of cancels, a suspended cancel touches the table only to cancel its own row, and only after a killed finish for that row was handled since it registered; by then the script has ended |
| `CancelRuns.SignalHasCause` | backend/corelab_backend/services/script_lifecycle_service.py:158-175 | an event object is only set by a killed finish handled after the call registered it |
| `CancelRuns.KilledStaysEnded` | backend/corelab_backend/services/script_lifecycle_service.py:345-403 | after the kill confirmation the script status is terminal for good |
| `CancelRuns.LostRegistrationIsForever` | backend/corelab_backend/services/script_lifecycle_service.py:158-171 | a cancel whose registry entry another cancel overwrote or popped is never confirmed |
| `Sessions.Session.CreateReservationBatch` | backend/corelab_backend/services/reservation_service.py:623-797 | raises exactly the first error of the first failing pass and changes nothing, or inserts every row and its audit row |
| `Sessions.Session.ValidateItem` | backend/corelab_backend/services/reservation_service.py:271-305 | time, then link, then trigger time, as one item of the validating loop raises them |
| `Sessions.Session.InsertRows` | backend/corelab_backend/services/reservation_service.py:732-797 | appends one scheduled row and one audit row per item, in order |
| `Sessions.Session.PreviewItem` | backend/corelab_backend/services/reservation_service.py:528-620 | the findings of one item: time first, then card and conflict, a too long item still checked for conflicts |
| `Sessions.Session.PreviewConflicts` | backend/corelab_backend/services/reservation_service.py:497-620 | collects every finding of every item |
| `Sessions.Session.ModifyReservation` | backend/corelab_backend/services/reservation_service.py:958-1092 | leaves the row with the columns written before the check that failed |
| `Sessions.Session.WriteScriptFields` | backend/corelab_backend/services/reservation_service.py:1040-1065 | the script columns, and the trigger time refused outside the window after the script is written |
| `Sessions.Session.PatchReservation` | backend/corelab_backend/db.py:50-67 | the request around an edit: audit and constraints on success; roll back or commit on a refusal |
| `Sessions.Session.CancelReservation` | backend/corelab_backend/services/reservation_service.py:800-878 | cancels one live row for its owner or an admin, or changes nothing |
| `Sessions.Session.CancelReservationGroup` | backend/corelab_backend/services/reservation_service.py:881-955 | cancels all live rows of a group with one audit row, or none if any runs a script |
| `Sessions.Session.TransitionTo` | backend/corelab_backend/services/reservation_service.py:1202-1350 | moves along an allowed edge with its audit row, or changes nothing |
| `Sessions.Session.UpdateScriptStatus` | backend/corelab_backend/services/reservation_service.py:1352-1407 | moves the script status along an allowed edge with its audit row, or changes nothing |
| `Sessions.Session.MarkScriptDispatched` | backend/corelab_backend/services/reservation_service.py:1439-1505 | marks an active undispatched row running, stamps it, audits it and queues the request, or changes nothing |
| `ReservationService.GroupIdsInRange` | backend/corelab_backend/services/reservation_service.py:895-912 | the group query returns exactly the live rows of the group |
| `Ticks.PromoteDueScheduled` | backend/corelab_backend/services/reservation_scheduler.py:79-103 | the select and its loop equal visiting every row in the query's order; counts the moves |
| `Ticks.CloseDueActive` | backend/corelab_backend/services/reservation_scheduler.py:106-149 | the same for the closing phase, failed for a failed or killed script, completed otherwise |
| `Ticks.DispatchDueScripts` | backend/corelab_backend/services/reservation_scheduler.py:174-217 | the same for the first dispatch; counts the requests |
| `Ticks.RetryOne` | backend/corelab_backend/services/reservation_scheduler.py:346-410 | one stuck row: its marker cleared, given up as failed, or asked for again, with the counter of the branch taken |
| `Ticks.RetryStuckDispatches` | backend/corelab_backend/services/reservation_scheduler.py:327-412 | the same for the watchdog: clear, give up after three failures, or ask again |
| `Ticks.TickBody` | backend/corelab_backend/services/reservation_scheduler.py:415-462 | the four phases in their order, and the requests pending at commit |
| `Ticks.SelectedSuffices` | backend/corelab_backend/services/reservation_scheduler.py:79-103 | selecting the due rows first and looking again at each visit come to the same state |
| `Ticks.NextStillDue` | backend/corelab_backend/services/reservation_scheduler.py:79-103 | no visit of a phase changes a row that is still to be visited |
| `Lifecycles.Lifecycle.OnStarted` | backend/corelab_backend/services/script_lifecycle_service.py:177-300 | closes the dispatch loop of a running row, starts an undispatched one, drops a stale event |
| `Lifecycles.Lifecycle.OnFinished` | backend/corelab_backend/services/script_lifecycle_service.py:319-403 | ends a running script, drops a stale event, and signals a kill either way |
| `Lifecycles.Lifecycle.SignalKill` | backend/corelab_backend/services/script_lifecycle_service.py:168-171 | sets the event of whichever call is registered for the row |
| `Lifecycles.Lifecycle.BeginCancel` | backend/corelab_backend/services/script_lifecycle_service.py:428-431 | registers a call for an active row whose script runs |
| `Lifecycles.Lifecycle.RpcFailed` | backend/corelab_backend/services/script_lifecycle_service.py:432-459 | audits the failed attempt, discards the entry, touches no row |
| `Lifecycles.Lifecycle.KillTimedOut` | backend/corelab_backend/services/script_lifecycle_service.py:461-483 | audits the failed attempt, discards the entry, touches no row |
| `Lifecycles.Lifecycle.KillConfirmed` | backend/corelab_backend/services/script_lifecycle_service.py:485-498 | cancels the row, then discards the entry |
| `LogTail.Columns.Append` | backend/corelab_backend/services/reservation_service.py:1410-1436 | one push: the bounded text and the flag after it |
| `LogTail.Columns.AppendAll` | backend/corelab_backend/services/reservation_service.py:1410-1436 | after any sequence of pushes the text is the end of everything pushed and the flag says whether any is missing |
| `LogTail.TruncationIsRemembered` | backend/corelab_backend/services/reservation_service.py:1410-1436 | for any limits, a tail is marked as cut exactly when it was before or the push does not fit |
| `LogTail.TailIsTheEnd` | backend/corelab_backend/services/reservation_service.py:1424-1434 | the same about the fold of the pushes, for every limit of at least one |
| `LogTail.ChunkingDoesNotMatter` | backend/corelab_backend/services/reservation_service.py:1424-1434 | two ways of cutting the same output leave the same text and flag |
| `LogTail.ZeroLimitKeepsEverything` | backend/corelab_backend/services/reservation_service.py:1429-1431 | with a limit of zero the slice keeps everything: right exactly when there was no output |
| `Sweep.SweepMissesNothing` | backend/corelab_backend/services/schedule_recommender.py:193-252 | completeness with no disjointness assumption: if enough cards are all free throughout a window starting at s inside the horizon, the sweep answers with a start no later than s |
| `Sweep.SweepIsFirstBelieved` | backend/corelab_backend/services/schedule_recommender.py:193-252 | the sweep answers with the first window of the horizon in which enough cards are believed free at every instant, between the starts and the ends of one instant too, and with none exactly when there is no such window; a card is believed free when each stretch begun is followed by some end |
| `Sweep.BeliefIsTruthOrReentry` | backend/corelab_backend/services/schedule_recommender.py:193-223 | a card is believed free exactly when it is free or an end inside another of its stretches was the last thing to happen to it |
| `Sweep.SoundExactlyWhereBeliefIsTrue` | backend/corelab_backend/services/schedule_recommender.py:193-252 | any question, for any number of cards, is answered with a really covered window exactly when its first believed window is covered |
| `Sweep.SweepIsSound` | backend/corelab_backend/services/schedule_recommender.py:193-252 | where no stretch ends inside another of its card the window lies inside the horizon and at every instant of it enough cards are free |
| `RealQuestions.OneCardSoundExactly` | backend/corelab_backend/services/schedule_recommender.py:84-95 | for a one-card server, every limit of 60 s or more on the seven-day horizon, from now or any later time, is answered soundly exactly when each coming end that another live row of the card covers is followed by a start of the card within 60 s |
| `RealQuestions.AllCardsSoundExactly` | backend/corelab_backend/services/schedule_recommender.py:84-95 | for all the cards of any server asked for together, every limit of 60 s or more, from now or any later time, is answered soundly exactly when at no coming instant each card is free or held by a row in which another one of the card has ended, not seven days before and with no start since, not all are free, and for 60 s nothing starts on any |
| `RealQuestions.FalseOpeningFools` | backend/corelab_backend/services/schedule_recommender.py:193-228 | at such an instant, some request for one minute of all the cards is answered with a window in which one of them is held |
| `Sweep.AllCardsWindow` | backend/corelab_backend/services/schedule_recommender.py:211-252 | when every card is asked for, a window is believed free exactly when each card is believed free at each of its instants and none starts strictly inside |
| `RealQuestions.ServerSoundExactly` | backend/corelab_backend/services/schedule_recommender.py:84-95 | a corollary for any number of cards and a given limit: all questions are answered soundly exactly when each one's first believed window is covered |
| `RealQuestions.BeliefFromRows` | backend/corelab_backend/services/schedule_recommender.py:124-145 | the belief in terms of reservations: each one begun by the instant and not over as the search starts is followed by an end |
| `RealQuestions.BackToBackIsOffered` | backend/corelab_backend/services/schedule_recommender.py:198-200 | an input recommend accepts: two back-to-back hours on the only card, an hour asked for, and the second booked hour is offered with no card in it |
| `Sweep.PicksAreFree` | backend/corelab_backend/services/schedule_recommender.py:255-271 | the picks are distinct cards free at the instant, at most as many as asked, and all the free ones if fewer |
| `Sweep.PicksComeFirst` | backend/corelab_backend/services/schedule_recommender.py:255-271 | the picks keep the server's order and pass over no free card for a later one |
| `Sweep.EnoughPicked` | backend/corelab_backend/services/schedule_recommender.py:255-271 | where enough cards are free exactly as many as asked are picked |
| `Sweep.AllPickedStayFree` | backend/corelab_backend/services/schedule_recommender.py:255-271 | when every card is asked for, each is free throughout a covered window |
| `Sweep.PickedCardMayBecomeBusy` | backend/corelab_backend/services/schedule_recommender.py:255-271 | otherwise a picked card may be taken inside the window: a concrete case |
| `Sweep.TimelineFaithful` | backend/corelab_backend/services/schedule_recommender.py:193-200 | the sorted events are exactly the boundaries of the busy stretches |
| `Sorting.SortSorts` | backend/corelab_backend/services/schedule_recommender.py:163-164 | the stable sort is ordered and a permutation |
| `Recommender.CollectEvents` | backend/corelab_backend/services/schedule_recommender.py:193-197 | the events list, two per stretch |
| `Recommender.PickFirstN` | backend/corelab_backend/services/schedule_recommender.py:255-271 | the growing list equals the first free cards |
| `Recommender.InitiallyFree` | backend/corelab_backend/services/schedule_recommender.py:202-209 | the free set as the horizon opens |
| `Recommender.SweepTimeline` | backend/corelab_backend/services/schedule_recommender.py:211-252 | the loop over the events returns the sweep's start |
| `Recommender.EarliestWindowForServer` | backend/corelab_backend/services/schedule_recommender.py:167-252 | no feasible window is missed or starts earlier; the picks are distinct cards free as it starts; without re-entry every instant is covered, exactly as many are picked, and if all are asked for each stays free |
| `Recommender.WindowIsPromised` | backend/corelab_backend/services/schedule_recommender.py:167-271 | the same in terms of reservations: asked length, inside seven days, distinct unreserved cards, and what re-entry can spoil |
| `Recommender.BusyIsReserved` | backend/corelab_backend/services/schedule_recommender.py:124-145 | inside the horizon a card is busy for the sweep exactly when a live reservation covers the instant |
| `Recommender.ClipBusy` | backend/corelab_backend/services/schedule_recommender.py:140-145 | the dictionary of clipped stretches, card by card |
| `Recommender.CollectCandidates` | backend/corelab_backend/services/schedule_recommender.py:147-160 | one candidate per server that has a window, in the servers' order |
| `Recommender.KeepEligible` | backend/corelab_backend/services/schedule_recommender.py:114-120 | the servers with enough cards, in order |
| `Recommender.GatherCandidates` | backend/corelab_backend/services/schedule_recommender.py:114-160 | the candidates of the eligible servers against one dictionary of busy stretches |
| `Recommender.Recommend` | backend/corelab_backend/services/schedule_recommender.py:63-164 | refuses a count below one or a limit below 60 s, and otherwise returns exactly the first top k of all candidates by start |
| `Recommender.RecommendationsPromise` | backend/corelab_backend/services/schedule_recommender.py:63-164 | the answer is sorted and at most top k long; each window has the asked length, lies inside seven days and picks distinct cards of its server unreserved as it starts; without re-entry enough cards are unreserved all along, as many picked, and all of them throughout if all are asked for |
| `Recommender.NoServerIsForgotten` | backend/corelab_backend/services/schedule_recommender.py:147-164 | for each bookable window of an eligible server the answer holds a candidate of that server starting no later, or is top k long and starts throughout no later |
| `Recommender.EachServerOnce` | backend/corelab_backend/services/schedule_recommender.py:147-164 | where servers have ids of their own, each is recommended at most once |
| `Recommender.FirstIsNoLater` | backend/corelab_backend/services/schedule_recommender.py:147-164 | the first recommendation starts no later than any bookable window of any eligible server |
| `KeyLines.LabelsDoNotMatter` | agent/corelab_agent/authorized_keys.py:127-149 | what follows a key never changes its fingerprint |
| `KeyLines.WordsConcat` | agent/corelab_agent/authorized_keys.py:137-142 | splitting at whitespace splits the words |
| `KeyLines.SplitOfJoin` | agent/corelab_agent/authorized_keys.py:193-196 | the lines of a written file are the lines written |
| `KeyLines.JoinOfSplit` | agent/corelab_agent/authorized_keys.py:193-196 | rewriting an unchanged file at most adds the final newline |
| `AuthorizedKeys.PushedLine` | agent/corelab_agent/authorized_keys.py:186-190 | the pushed line is one line with the key's fingerprint whatever the label, and live unless the key text begins with a comment sign |
| `AuthorizedKeys.PushSucceedsExactly` | agent/corelab_agent/authorized_keys.py:383-440 | a push is accepted exactly for a key with a fingerprint and a key and label of one line each, and refused in that order |
| `AuthorizedKeys.PushAddsOneKey` | agent/corelab_agent/authorized_keys.py:199-212 | push keeps the old lines as a prefix and adds exactly the pushed fingerprint, once, unless held |
| `AuthorizedKeys.PushIsIdempotentExactly` | agent/corelab_agent/authorized_keys.py:199-212 | a second push, under any label, changes nothing exactly when the key was held before or is not commented out |
| `AuthorizedKeys.CommentedKeyPilesUp` | agent/corelab_agent/authorized_keys.py:199-212 | a key whose text begins with a comment sign is added by every push and never read back |
| `AuthorizedKeys.NotesBeginAlike` | agent/corelab_agent/authorized_keys.py:221-228 | a platform comment is told by how it begins, whatever whitespace comes first |
| `AuthorizedKeys.RevokeRemovesOneKey` | agent/corelab_agent/authorized_keys.py:215-232 | revoke leaves no line with the fingerprint, takes at most one platform comment with each, and keeps every other line in order and multiplicity |
| `AuthorizedKeys.RevokeKeepsOtherPrints` | agent/corelab_agent/authorized_keys.py:215-232 | the fingerprints left are the old ones without the revoked one, in order |
| `AuthorizedKeys.RevokeIsIdempotent` | agent/corelab_agent/authorized_keys.py:443-489 | revoking twice is revoking once |
| `AuthorizedKeys.RevokeUndoesPushExactly` | agent/corelab_agent/authorized_keys.py:199-232 | revoking a newly pushed key restores the lines exactly when the key is not commented out and the last line was no platform comment |
| `AuthorizedKeys.ReadbackAgrees` | agent/corelab_agent/authorized_keys.py:170-183 | reading back lists exactly the fingerprints push and revoke see, in file order |
| `AuthorizedKeys.ReadbackNamesLines` | agent/corelab_agent/authorized_keys.py:170-183 | every entry names its own line, and the line numbers increase |
| `AuthorizedKeys.PushReadsBack` | agent/corelab_agent/authorized_keys.py:152-167 | a newly pushed key reads back as the last entry, with its type, and its label at the end of the comment |
| `AuthorizedKeys.FileFollowsLastEdit` | agent/corelab_agent/authorized_keys.py:383-489 | after any history of pushes and revokes a key is in the file exactly when the last edit about it granted it, or none was and it was there |
| `AuthorizedKeys.BystandersStay` | agent/corelab_agent/authorized_keys.py:383-489 | lines no edit names, other than platform comments, come through any history in order and multiplicity |
| `AuthorizedKeys.KeyFile.Push` | agent/corelab_agent/authorized_keys.py:383-440 | the key's errors before the label's; the file rewritten only if it differs |
| `AuthorizedKeys.KeyFile.Revoke` | agent/corelab_agent/authorized_keys.py:443-489 | whether the key was held, and the file after it |
| `AuthorizedKeys.KeyFile.Read` | agent/corelab_agent/authorized_keys.py:492-533 | the entries, and the count of key lines as valid plus invalid |
| `AuthorizedKeys.RewriteForRevoke` | agent/corelab_agent/authorized_keys.py:215-232 | the loop with its popped comments equals the fold |
| `AuthorizedKeys.Summarize` | agent/corelab_agent/authorized_keys.py:170-183 | the loop with its counters equals the fold |
| `RateLimit.KeysAreApart` | backend/corelab_backend/middleware/rate_limit.py:260-264 | no two budgets, counters or locks share a key |
| `RateLimit.BudgetBucketIsHistory` | backend/corelab_backend/middleware/rate_limit.py:89-96 | in any log with a clock that never goes back, a budget's pruned bucket is its whole request history cut to the last window |
| `RateLimit.PruningIsExact` | backend/corelab_backend/middleware/rate_limit.py:91-95 | pruning at every append loses nothing a later window needs |
| `RateLimit.AllowedByHistory` | backend/corelab_backend/middleware/rate_limit.py:98-100 | a request passes exactly when the requests of its own window, refused ones and itself included, are within the limit |
| `RateLimit.NoWindowOverLimit` | backend/corelab_backend/middleware/rate_limit.py:98-100 | no stretch of window length, wherever it starts, lets more requests through than the limit |
| `RateLimit.RemainingIsExact` | backend/corelab_backend/middleware/rate_limit.py:98-100 | after an allowed request, exactly the reported remainder passes at the same instant |
| `RateLimit.FailureBucketIsHistory` | backend/corelab_backend/middleware/rate_limit.py:102-115 | a failure counter's bucket is the failures since the last success, cut to the last failure's window |
| `RateLimit.TripsByHistory` | backend/corelab_backend/middleware/rate_limit.py:102-115 | a failure trips the lock exactly when it is at least the threshold-th in its own window |
| `RateLimit.LockedByHistory` | backend/corelab_backend/middleware/rate_limit.py:117-129 | a subject is locked at t exactly when, since its last success, some failure tripped and its lock has not run out, whatever reads deleted in between |
| `RateLimit.SlidingWindow.Hit` | backend/corelab_backend/middleware/rate_limit.py:98-100 | the answer and the remainder from the count after the hit |
| `RateLimit.SlidingWindow.CountAfterHit` | backend/corelab_backend/middleware/rate_limit.py:89-96 | prune, append, count |
| `RateLimit.SlidingWindow.FailureHit` | backend/corelab_backend/middleware/rate_limit.py:102-115 | sets the lock exactly at the threshold, from the second clock reading |
| `RateLimit.SlidingWindow.IsLocked` | backend/corelab_backend/middleware/rate_limit.py:117-125 | the answer, and the expired lock deleted |
| `RateLimit.SlidingWindow.ClearFailure` | backend/corelab_backend/middleware/rate_limit.py:127-129 | forgets the counter and the lock |
| `ServerCaches.CacheIsLatest` | agent/corelab_agent/reverse_cache.py:79-117 | after any history of syncs every lookup gives the account of the latest sync that speaks about it since the last full snapshot, with removals winning and other servers untouched |
| `ServerCaches.AppliedMeans` | agent/corelab_agent/reverse_cache.py:100-117 | one sync's effect on one name |
| `ServerCaches.SnapshotForgets` | agent/corelab_agent/reverse_cache.py:79-97 | a full snapshot makes everything before it irrelevant to its server |
| `ServerCaches.DropServer` | agent/corelab_agent/reverse_cache.py:85-87 | the deleting loop removes exactly one server's keys |
| `ServerCaches.WriteEntries` | agent/corelab_agent/reverse_cache.py:88-95 | the writing loop: the last entry of a name wins |
| `ServerCaches.RemoveNames` | agent/corelab_agent/reverse_cache.py:115-116 | the removing loop |
| `PolicyHandlers.ReverseCache.ApplyFullSnapshot` | agent/corelab_agent/reverse_cache.py:79-97 | replaces one server's slice and counts it |
| `PolicyHandlers.ReverseCache.ApplyIncremental` | agent/corelab_agent/reverse_cache.py:100-117 | upserts, then removes, and counts |
| `PolicyHandlers.PolicyCache.ApplySync` | agent/corelab_agent/policy_cache.py:53-68 | replaces one server's policies, keeps the etag, and counts |
| `Compliance.VerdictMeans` | agent/corelab_agent/compliance_monitor.py:84-191 | unlinked exactly when nobody is linked; preempting exactly when somebody is linked, none of them is entitled and another account is; no reservation exactly when nobody is |
| `Compliance.WhoIsEntitled` | agent/corelab_agent/compliance_monitor.py:105-124 | an account is entitled exactly by a booking of one of its users of the GPU over this moment that no admin declared |
| `Compliance.OveruseExactly` | agent/corelab_agent/compliance_monitor.py:125-146 | overuse is reported exactly when the first booking that entitles the account declares an amount and the process exceeds it by more than the tolerated percentage; the report names that booking |
| `Compliance.EvaluateProcess` | agent/corelab_agent/compliance_monitor.py:84-191 | the nested loops with their flags and breaks return the declarative verdict, payload included |
| `Compliance.OwnReservation` | agent/corelab_agent/compliance_monitor.py:112-124 | the double loop finds the first covering booking |
| `Compliance.HoldsGpu` | agent/corelab_agent/compliance_monitor.py:158-171 | the double loop finds whether anyone of another account is entitled |
| `ComplianceRuns.PoliciesFollowLog` | agent/corelab_agent/policy_cache.py:53-72 | in any run a policy lookup is the last sync's for the server |
| `ComplianceRuns.AccountsFollowLog` | agent/corelab_agent/reverse_cache.py:79-124 | in any run an account lookup is the latest sync's |
| `ComplianceRuns.PendingFollowsLog` | agent/corelab_agent/grace_tracker.py:45-72 | in any run a pending timer dates from the first step that noted its signature |
| `ComplianceRuns.KillsFollowLog` | agent/corelab_agent/policy_handlers.py:127-262 | in any run a step kills exactly when the policy is enabled and automatic, the key in scope, the capability last switched on, the pid known, and the grace none or begun at least that long ago |
| `ComplianceRuns.EffectsFollowLog` | agent/corelab_agent/policy_handlers.py:127-262 | in any run what a step does about a violation, the kill, the notification and the report, with severity and outcome, follows from the last policy sync, the capability and when the violation was first seen |
| `ComplianceRuns.EveryKillIsAllowed` | agent/corelab_agent/policy_handlers.py:127-262 | every kill in the effects of a run was allowed by the history before some step |
| `ComplianceRuns.GraceIsGranted` | agent/corelab_agent/grace_tracker.py:66-72 | the grace began at a step of the run that noted the same signature under an enabled policy |
| `ComplianceRuns.GraceNeverRestarts` | agent/corelab_agent/grace_tracker.py:45-72 | a grace period once started is never restarted |
| `GraceRuns.GraceIsContinuousExactly` | agent/corelab_agent/grace_tracker.py:9-13 | over histories of monitor ticks and messages: the tracker answers as its documentation says, observed continuously for the grace period, at every later instant and for every grace, exactly when no tick since the first observation of the signature failed to observe it |
| `GraceRuns.TimerIsFirstObservation` | agent/corelab_agent/grace_tracker.py:66-72 | a timer dates from the first tick that ever observed the signature under an enabled policy with a grace |
| `GraceRuns.TickTimes` | agent/corelab_agent/compliance_monitor.py:291-331 | a tick starts the timer of exactly the signatures it observes; a process or GPU that is absent is not observed |
| `ComplianceRuns.GapsDoNotResetGrace` | agent/corelab_agent/grace_tracker.py:45-72 | a concrete gap: a violation seen once, gone, and seen again after the grace is killed at once |
| `ComplianceRuns.MonitorKillsOnlyPreemptors` | agent/corelab_agent/compliance_monitor.py:147-182 | a process the monitor kills has linked users, none entitled, while another account's user is |
| `ComplianceRuns.IdleFollowsLog` | agent/corelab_agent/compliance_monitor.py:226-232 | the streak a GPU carries is the current unbroken run of idle looks, from its first |
| `ComplianceRuns.HeatExactly` | agent/corelab_agent/compliance_monitor.py:264-288 | heat is reported exactly above the limit of the last policy sync, and nothing but heat and hangs is reported of a GPU |
| `ComplianceRuns.HangExactly` | agent/corelab_agent/compliance_monitor.py:226-262 | a hang is reported exactly when memory is at the floor and the current idle run of the log began at least the threshold ago, both settings being those of the last policy sync in the log; the report holds the idle seconds, the memory and both settings |
| `PolicyHandlers.KillsExactly` | agent/corelab_agent/policy_handlers.py:161-262 | when one violation's reaction kills |
| `PolicyHandlers.ReactionIsHeard` | agent/corelab_agent/policy_handlers.py:161-262 | an enabled policy past its grace kills, notifies and reports exactly as its severity, scope and the capability say, and any other does nothing |
| `PolicyHandlers.ReportsDowngradeExactly` | agent/corelab_agent/policy_handlers.py:195-206 | the report is the last effect, names a downgrade exactly when one occurred, and shows a kill only for one that worked |
| `PolicyHandlers.NotedMeans` | agent/corelab_agent/grace_tracker.py:45-72 | noting a violation keeps its first instant, renews its last, and leaves all others alone |
| `PolicyHandlers.PolicyDispatcher.Dispatch` | agent/corelab_agent/policy_handlers.py:127-215 | the stepwise severity, the effects in order, and the grace timer |
| `PolicyHandlers.PolicyDispatcher.Route` | agent/corelab_agent/policy_handlers.py:217-264 | the effects and the action taken |
| `PolicyHandlers.GraceTracker.Record` | agent/corelab_agent/grace_tracker.py:45-72 | when the grace is over, and the timer kept |
| `ComplianceMonitor.Monitor.EvaluateGpu` | agent/corelab_agent/compliance_monitor.py:212-288 | the streak updated before it is judged, and the violations found |
| `ComplianceMonitor.Monitor.RunTick` | agent/corelab_agent/compliance_monitor.py:291-331 | every process of a GPU, then the GPU, each violation dispatched as it is found |
| `ComplianceMonitor.TickIsARun` | agent/corelab_agent/compliance_monitor.py:291-331 | a tick is a stretch of a run, so every whole-run result speaks about ticks |
| `AgentRpc.RunIsSound` | backend/corelab_backend/services/agent_rpc.py:45-65 | in every run a pending entry is a call under its own id that still waits or is leaving without an answer, and at most 1024 optional replies are awaited, each id once |
| `AgentRpc.CallsEndOnce` | backend/corelab_backend/services/agent_rpc.py:97-136 | whatever follows, a call keeps its first answer and returns once |
| `AgentRpc.RepliesAreOwn` | backend/corelab_backend/services/agent_rpc.py:81-94 | a call returns a payload only from a frame with its own id and the expected type that came after it was made |
| `AgentRpc.AnswerIsFirstReply` | backend/corelab_backend/services/agent_rpc.py:68-136 | with unique ids every call that has returned either gives the payload of the first frame with its id when that is of the expected type, or its type as the error when it is not, or ended without an answer because its timer fired, its caller went away or its send failed in the run |
| `AgentRpc.ResumeReturnsFirstReply` | backend/corelab_backend/services/agent_rpc.py:124-136 | an awaiting call whose first reply has come returns it as soon as it resumes, and one without goes on waiting |
| `AgentRpc.FirstReplyDecides` | backend/corelab_backend/services/agent_rpc.py:68-136 | with unique ids, frames between a call's timeout and its finally included: an open call has its first reply as its future, or none and is registered; a returned one is no longer pending |
| `AgentRpc.EveryExitIsExcused` | backend/corelab_backend/services/agent_rpc.py:122-136 | a call that ends without an answer had its timer fire, its caller leave or its send fail earlier in the run, at the stage where that can be |
| `AgentRpc.TimeoutReturns` | backend/corelab_backend/services/agent_rpc.py:124-136 | a call whose timer fires returns a timeout and leaves nothing pending under its id |
| `AgentRpc.RequestIsAnswered` | backend/corelab_backend/services/agent_rpc.py:97-136 | a request made, sent and answered returns the payload of the expected frame and the type of any other, whatever went before |
| `AgentRpc.LeaversReturn` | backend/corelab_backend/services/agent_rpc.py:122-136 | a call whose caller goes away or whose send fails returns that and leaves nothing pending under its id |
| `AgentRpc.NoFutureIsLeft` | backend/corelab_backend/services/agent_rpc.py:130-136 | in every run a call that has returned or timed out leaves no future for a late frame to resolve |
| `AgentRpc.AwaitedReplyIsUsedOnce` | backend/corelab_backend/services/agent_rpc.py:57-84 | an awaited optional reply is used when it comes, and only once |
| `AgentRpc.DeliveryIsUsedExactly` | backend/corelab_backend/services/agent_rpc.py:68-94 | a frame is used exactly when it answers a waiting call or is an awaited optional reply |
| `AgentRpc.PutEvictsOldest` | backend/corelab_backend/services/agent_rpc.py:57-65 | only a new id in a full table costs another its place, and then the oldest |
| `AgentRpc.PutKeepsDistinct` | backend/corelab_backend/services/agent_rpc.py:57-65 | registering keeps ids distinct and the table small, and the new id is in it |
| `AgentRpc.TakeRemovesOne` | backend/corelab_backend/services/agent_rpc.py:82-84 | consuming an optional reply removes exactly its id |
| `AgentRpc.Tables.ExpectOptionalResponse` | backend/corelab_backend/services/agent_rpc.py:57-65 | the eviction loop leaves the newest 1024 registrations |
| `AgentRpc.Tables.DeliverResponse` | backend/corelab_backend/services/agent_rpc.py:68-94 | the branches of a delivery and what it returns |
| `AgentRpc.Tables.BeginRequest` | backend/corelab_backend/services/agent_rpc.py:110-121 | nothing is registered for an unknown frame or an offline server |
| `AgentRpc.Tables.Interrupt` | backend/corelab_backend/services/agent_rpc.py:124-129 | the timer or the caller cancels a waiting future and leaves the entry to the finally |
| `AgentRpc.Tables.Finish` | backend/corelab_backend/services/agent_rpc.py:130-136 | the entry dropped and an open future cancelled |
| `ScriptRunner.AtMostOneLive` | agent/corelab_agent/script_runner.py:166-176 | in every run at most one script of a reservation is live, and the running map reaches it |
| `ScriptRunner.RunIsSound` | agent/corelab_agent/script_runner.py:273-276 | in every run the map holds exactly the scripts not yet cleaned up |
| `ScriptRunner.StartsAndFinishesBalance` | agent/corelab_agent/script_runner.py:406-426 | in every run started events equal finished events, plus one while a finish is still to come |
| `ScriptRunner.KilledFlagIsExact` | agent/corelab_agent/script_runner.py:178-213 | a finish says killed exactly when, while its task still waited, a cancel for it was handled or its run-time limit ran out |
| `ScriptRunner.FinishCarriesReason` | agent/corelab_agent/script_runner.py:406-421 | a finished event carries the reason last given to its script when it was pushed: the last cancel's, or the run-time limit's where no cancel gave one |
| `ScriptRunner.ScriptRunsThrough` | agent/corelab_agent/script_runner.py:265-426 | a request taken up by an idle runner is started, and reported finished and not killed once its process has exited; nothing else changes |
| `ScriptRunner.CancelIsReported` | agent/corelab_agent/script_runner.py:178-213 | a cancel that reaches a waiting script is reported as a kill with its reason once the process has exited, with a late kill scheduled exactly for a live real one |
| `ScriptRunner.FailedSpawnLeavesNoTrace` | agent/corelab_agent/script_runner.py:216-264 | a request whose process cannot be started leaves no trace |
| `ScriptRunner.LateKillEndsItsOwn` | agent/corelab_agent/script_runner.py:462-472 | a late kill that fires while its own script is in the map ends that process |
| `ScriptRunner.LateKillMissesExactly` | agent/corelab_agent/script_runner.py:462-472 | in any run, the late kill that the cancel of one script scheduled ends another script exactly when the cancelled one was cleaned up and a real script registered after it is live under the reservation as the kill fires |
| `ScriptRunner.RunsOneByOne` | agent/corelab_agent/script_runner.py:166-176 | in every run an earlier script of a reservation has been cleaned up before a later one is registered, and every late kill belongs to a script of its reservation |
| `ScriptRunner.LateKillIsReportedExactly` | agent/corelab_agent/script_runner.py:377-426 | the script a late kill ends is reported as killed exactly when it had itself been given a reason |
| `ScriptRunner.LateKillHitsTheNextScript` | agent/corelab_agent/script_runner.py:462-472 | a run in which a cancel's late kill ends the next script of the reservation, reported as not killed |
| `EndToEnd.CancelledRowWasStopped` | backend/corelab_backend/services/script_lifecycle_service.py:409-498 | in every run of backend and agent together, with events late, repeated, reordered or lost: a row that a suspended cancel turns cancelled belongs to a reservation for which the agent had handled a cancel, or whose script had run over its own limit |
| `EndToEnd.PushedKillHasOrder` | agent/corelab_agent/script_runner.py:178-213 | a pushed finish that says killed goes back to such a cancel or limit |
| `RequestRuns.RequestsAreAudited` | backend/corelab_backend/services/reservation_scheduler.py:391-410 | in every run the queued execute requests of a row are its audited dispatch and retries, instant for instant, so there is at most one more than retries |
| `RequestRuns.NoRequestAfterReport` | backend/corelab_backend/services/reservation_scheduler.py:333-352 | once a started or finished event of a dispatched row has been handled, nothing later queues a request for it |
| `DoubleRuns.SecondRunWasRetried` | backend/corelab_backend/services/reservation_scheduler.py:174-183 | in every run of backend and agent together in which the agent handles no more requests than were queued: a reservation's script runs a second time only when a watchdog retry was committed before that request was taken up and before the backend handled any event about the script, and the first run was cleaned up by then |
| `DoubleRuns.ScriptsAreRetried` | backend/corelab_backend/services/reservation_scheduler.py:341-412 | the agent never has more scripts of a reservation than one and one for each retry |
| `DoubleRuns.ScriptsAreRetriedEarly` | backend/corelab_backend/services/reservation_scheduler.py:341-412 | the same with only the retries committed before the backend first handled an event about the script, however long the run goes on |
| `DoubleRuns.TakenUpAfterCleanUp` | agent/corelab_agent/script_runner.py:166-176 | when the request behind a later script is taken up, each earlier one of the reservation has been cleaned up |
| `DoubleRuns.ScriptsNeedRequests` | agent/corelab_agent/script_runner.py:151-176 | in every run the scripts of a reservation, with the one being started, are at most the requests handled for it |
| `DoubleRuns.LateEventsRunTwice` | backend/corelab_backend/services/reservation_scheduler.py:174-183 | a concrete run: the script has run to its end, its events are late, the watchdog asks again after a minute, and the agent runs it a second time |
| `ScriptRunner.Maps.BeginExecute` | agent/corelab_agent/script_runner.py:151-176 | refuses a reservation already in the map |
| `ScriptRunner.Maps.Register` | agent/corelab_agent/script_runner.py:265-287 | the entry, its task and the started event |
| `ScriptRunner.Maps.CancelScript` | agent/corelab_agent/script_runner.py:178-213 | the reason set first, then the four answers |
| `ScriptRunner.Maps.PushAndCleanUp` | agent/corelab_agent/script_runner.py:406-426 | the finished event, then the entry removed |

## Left out

- MySQL, SQLAlchemy and locking: each call is an atomic step on committed state; deadlocks, retries and lost
  commits are not modelled.
- Audit write failures, which the audit service swallows: audit writes succeed.
- Time zones and datetime parsing: instants are numbers; a reservation time the agent cannot parse is a missing one.
- Clock readings within one monitor evaluation, one dispatch or one tick are one reading; the failure lock's
  second reading is kept apart.
- The order of tick instants: the run results assume none and hold for any.
- Row columns that no rule reads: the script's start, finish, exit code, size and log path, and when, why and by
  whom a row was cancelled; and the notifications and WebSocket pushes that follow a commit.
- The columns' own sizes and ranges other than the compute share (the tail's default limit of 65536 characters is one
  more than the bytes a MySQL TEXT column holds), and foreign keys.
- The query that resolves a script's Linux account: a link either leads to an account or does not, per tick.
- The sending of queued RPCs after the commit: a failed send is the step that audits a failed attempt, and it may
  happen for any row at any time.
- Listing, usage aggregation, time-limit checks, auth, invites, users, account links, server settings, schemas,
  migrations and the frontend: mostly single-guard writes that would add only easy members.
- EarliestWindowForServer: picked cards are promised to stay free only when every card is asked for; the sweep
  tracks how many cards are free, and a proved case shows a picked card taken inside the window.
- The order in which the query lists one card's reservations: the dictionary here follows the table's order, and the
  sweep's answer depends only on which stretches there are.
- RunKeepsCapacity: states what is enough for callers; RunKeepsCapacityExactly states what is exact.
- ModifyKeepsCapacity: states cases a caller sees at once; ModifyCapacityExact states what is exact.
- ModifyWithCommitExact: speaks of exclusive use alone, in terms of the window asked for; ModifyCapacityExact covers
  memory and compute as well.
- SHA-256, base64 and the printed fingerprint: one partial function from the key body.
- Text lines: split on newline only; Python's other line separators, and a carriage return before a newline, stay
  inside a line.
- Reading, installing and locating the file, sudo, user lookup, user name checks, capability gates and the mock
  mode of authorized_keys.
- The Redis branches of the limiter and the middleware around it; the clock does not go back.
- JSON decoding of sync messages: entries arrive typed; user ids that do not parse are absent.
- Process and GPU telemetry collection, and the callbacks' own work: a kill either works or not, a push is an effect.
- RunTick: one uninterrupted stretch of looks; syncs that arrive while it awaits are covered by the runs, which
  interleave all steps freely. The returned count of violations is not modelled.
- The float product in the memory tolerance: compared over whole percentages without rounding.
- FirstReplyDecides: assumes envelope ids are unique, as random UUIDs are; RepliesAreOwn does not. Whether a timer
  that fires in the turn in which the future is resolved wins is left open: both outcomes are steps.
- The runner's shutdown, output pump, user resolution and file handling; the five seconds of the late kill are any delay.
- StartsAndFinishesBalance: registration and the started push are one step here, while the code awaits the push
  after it has scheduled the wait; and a finished push that raises is left out, as the code swallows its errors.
- CancelledRowWasStopped: the order in which the network delivers, and how often, is free; that a cancel request
  reaches the agent at all is not claimed.
- SecondRunWasRetried: a request may be lost or late, but the agent handles each queued one at most once.

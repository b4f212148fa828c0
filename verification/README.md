# Protocols of an agent course, proved

The repository is course material about building agents. Five small protocols in it carry real state,
and this project models them in Dafny and proves what their documentation, tests and comments promise
of them - over every run, not for examples.

`dafny verify dfyconfig.toml` checks everything.

## What is modelled

**Order cancellation (Day05).** `OrderService.dfy` is the service as a transition function over six
tables (orders, payments, inventory, refunds, releases, tickets) with an injected fault; each call
commits on its own. `OrderEnvironment.dfy` is the same service as the mutable object the agents talk
to, method by method proved to be that transition, with its budget of 18 recorded calls.
`SagaInvariants.dfy` proves what every call sequence keeps. `Evaluators.dfy` has the monitors as loops
over recorded events and says what their sets mean without a monitor. `MonitorSoundness.dfy` connects
the two: what a monitor concludes from replies is true in the ledger. `ScriptedDriver.dfy` is the whole
deterministic driver, proved against service, monitors and response contract at once.

**Interview sessions with two logs (Day04).** `SessionLog.dfy` replays an event log and characterises
the acceptable logs without a replay. `EvidenceFiles.dfy` is the write-once file mirror, its loader and
the merge of the two logs. `Workflow.dfy` has the operations as functions and as the two classes that
change rows and files in place. `PublishProtocol.dfy` interleaves processes: transactions, single-file
puts, crashes, and the loss of the database; `DatabaseLoss.dfy` shows exactly which losses can end in a
refused file, and `TwoLogs.dfy` when the two logs come together and when they part for good.

**Supervisor graph (Day03).** `TaskPlan.dfy` is the plan validator and the result reducer,
`Supervisor.dfy` the graph as a step function over arbitrary plans, worker outcomes and verdicts,
`SupervisorRuns.dfy` what holds in every run, and `SupervisorGraph.dfy` the run as an object that
accumulates its state through validator and reducer.

**Span merging and masking (Day08).** `Spans.dfy` is the merge, `SpanOrder.dfy` the exact condition
under which input order matters, `Masking.dfy` the back-to-front rewrite and the left-to-right
rendering it must equal. The field `kind` of a span is its label (the word is reserved in Dafny).

**Document registry (Day03).** `SourceRegistry.dfy` has `reserve` and `update` as transactions and as
an object, `LeaseProtocol.dfy` interleaves workers over a clock.

The functions that only compute - `Dispatch`, `Run`, `Policy`, `Replay`, `Commit`, `Advance`, `Merge`,
`Splice`, `Reserve`, `Update` and their helpers - are the specification; the rows below name the
methods proved equal to them and the lemmas about them.

## Claims that hold with an exact condition

- "Cancelled is terminal" fails while the shipping fault is armed, because it overwrites any status
  (Day05/business_lab/environment.py:153-156). `CancelledIsTerminalUnlessShipping` is an if and only if.
- "The version counts status changes" is off by one exactly when a begin call meets that fault on the
  caller's own order that was shipped already (`VersionCountsStatusChanges`,
  `ReshipmentBumpsTheVersion`).
- `get_session` brings the two logs together in every run unless they already say different things about
  some event (`TwoLogs.GetSessionConverges`); then every operation on the session fails for good
  (`SplitForever`). They can get there after the database was lost under a publisher
  (`LossUnderAPublisherSplits`), and exactly if something a publisher of the session holds is no longer in
  the longer of log and files (`PublishProtocol.Survives`): `LossSplitsExactly`. The same condition decides
  whether a publisher can be refused: `LossIsHarmlessExactly`, `LossUnderAPublisherConflicts`.
- Merged scores are independent of the order of the spans exactly if inverted spans that tie and that no
  other span reaches agree on the score (`OrderMattersExactly`, `TiesCanDisagree`); positions are always
  independent.
- A label that may not be shown protects its words only through its merged group
  (`SpanSharesItsGroup`, `AllowedLabelWins`).
- Without an owner token, exclusion and "ready is final" hold for workers that stop reporting when their
  lease runs out (`LeaseProtocol.Punctual`). `RunIsSoundExactly` has the exact condition - a late report
  is harmless while the document is not ready and nobody else holds it - and `LateReportUndoesReady` a
  run that breaks. The comment at Day03/common/source_registry.py:152-153 announces this limit.
- The plan schema allows task ids of 100 characters, but the worker reads the prefixed id back through
  the same schema, so ids of 98 to 100 characters crash the run (`RoundCrashesExactly`, `LongIdIsReached`).
- Within one sweep of the plan validator a task already sees the tasks accepted before it, because the
  set is filled from a generator that reads it; the proof is about that sweep.

## Model

| member | source | states |
|---|---|---|
| `SagaInvariants.SuccessesAreReal` | Day05/business_lab/environment.py:107-211 | an ok reply to a write holds in the ledger: the order is the caller's, the version was the expected one and the order is cancelling, the refund is on record under its key, the release row exists and was new iff a quantity came back, the order is cancelled, the ticket is open |
| `SagaInvariants.TurnedAwayExactly` | Day05/business_lab/environment.py:107-118 | which calls get UNKNOWN_TOOL, INVALID_ORDER_ID, NOT_FOUND and FORBIDDEN: each iff its own check is the first to fail |
| `SagaInvariants.BeginRepliesExactly` | Day05/business_lab/environment.py:149-167 | for an admitted caller each reply of `begin_cancellation` comes iff argument, version after the injected shipment, and status call for it, with the already-started flag |
| `SagaInvariants.RefundRepliesExactly` | Day05/business_lab/environment.py:169-194 | each reply of `refund_payment` comes iff: arguments do not fit, the refund is on record (replay), the key is used for something else, the order is not in cancellation, the amount is not the open balance, the answer is lost, or it is paid now |
| `SagaInvariants.ReleaseRepliesExactly` | Day05/business_lab/environment.py:196-211 | each reply of `release_stock` comes iff: no key, key held by another order, already released, refund not confirmed, or released now with the order's quantity |
| `SagaInvariants.CompleteRepliesExactly` | Day05/business_lab/environment.py:139-147 | each reply of `complete_cancellation`: already completed iff cancelled before, completed iff refunded and released, else an incomplete saga |
| `SagaInvariants.RefusalsChangeNothing` | Day05/business_lab/environment.py:107-211 | a call without an ok reply changes nothing, except that the one injected fault ships the order, or loses the answer of a refund before or after its commit |
| `SagaInvariants.NoInsertClashes` | Day05/business_lab/environment.py:93-96 | in every reachable state and for every call, no insert meets a primary-key or UNIQUE clash, so `SERVICE_ERROR` is unreachable |
| `SagaInvariants.StatusStep` | Day05/business_lab/environment.py:139-167 | any call either leaves all orders alone or writes one status of the owner's order: shipped by the armed fault, paid to cancelling, or cancelling to cancelled with full refund and release row present |
| `SagaInvariants.MoneyStep` | Day05/business_lab/environment.py:173-194 | any call leaves refunds and payments alone, or adds exactly one refund row under a new key that pays out exactly what was left |
| `SagaInvariants.StockStep` | Day05/business_lab/environment.py:196-211 | any call leaves releases and stock alone, or gives exactly one fully refunded order its stock back |
| `SagaInvariants.TicketStep` | Day05/business_lab/environment.py:126-132 | only `create_ticket` opens a ticket, and the first reason of an order stays |
| `SagaInvariants.RowsAreKept` | Day05/business_lab/environment.py:107-211 | over every run no order, payment or inventory row appears or disappears, and owner, amount, currency, SKU, quantity and captured amount never change |
| `SagaInvariants.ReleaseKeysStayUnique` | Day05/business_lab/environment.py:196-211 | release rows stay unique by operation key over every run |
| `SagaInvariants.RefundsAlwaysSettle` | Day05/business_lab/environment.py:173-190 | over every run each refund row is positive, belongs to a fully refunded order, and is that order's only row |
| `SagaInvariants.AtMostOneRefundPerOrder` | Day05/business_lab/environment.py:173-190 | over every run from a fixture, whatever keys are used, an order has at most one refund row, and only when it is fully refunded |
| `SagaInvariants.RefundConservation` | Day05/business_lab/environment.py:173-190 | over every run refunded minus its initial value is the sum of the order's refund rows, captured is constant, refunded never decreases and never exceeds captured |
| `SagaInvariants.StockConservation` | Day05/business_lab/environment.py:196-211 | over every run available stock of a SKU plus the quantities of its not yet released orders is constant |
| `SagaInvariants.CancelledIsSettled` | Day05/business_lab/environment.py:139-147 | over every run every cancelled order is fully refunded and has a release row |
| `SagaInvariants.VersionCountsStatusChanges` | Day05/business_lab/environment.py:139-167 | over every run version minus initial version is the number of status changes, plus one exactly if some call begins to cancel the caller's own order with an integer version while the order is shipped already and the shipping fault is armed |
| `SagaInvariants.ReshipsExactly` | Day05/business_lab/environment.py:150-156 | that guard, read before the call, says exactly whether the call uses up the fault on a shipped order |
| `SagaInvariants.ArmedShippedFromTheStart` | Day05/business_lab/environment.py:153-156 | while the fault is armed an order is shipped iff the fixture shipped it |
| `SagaInvariants.ReshipmentBumpsTheVersion` | Day05/business_lab/environment.py:153-156 | the exception happens: a run from a fixture in which the version grows and no status changes |
| `SagaInvariants.CancelledIsTerminalUnlessShipping` | Day05/business_lab/environment.py:149-157 | a cancelled order can leave that status by some call sequence if and only if the shipping fault is still armed, the caller owns the order and its id is not blank |
| `SagaInvariants.CancelledStays` | Day05/business_lab/environment.py:149-163 | without an armed shipment on the caller's own order, cancelled stays cancelled under every call sequence |
| `SagaInvariants.RefundExactlyOnce` | Day05/business_lab/environment.py:169-194 | any number of identical refund calls with any reads in between leave the ledger of one fault-free call, as soon as there were two attempts under the before-commit timeout and one otherwise, and the old ledger before that |
| `SagaInvariants.RefundIsIdempotent` | Day05/business_lab/environment.py:173-177 | in the ledger a refund call aims at, the same call changes nothing, under every fault |
| `SagaInvariants.OutageRefundsNothing` | Day05/business_lab/environment.py:183-184 | during a payment outage no number of refund calls and reads changes anything |
| `SagaInvariants.UsedKeyIsInert` | Day05/business_lab/environment.py:173-177 | after any later run a refund call under a used key changes nothing, and succeeds only for the order and amount the key was used for |
| `SagaInvariants.RecordedRefundIsAnswered` | Day05/business_lab/environment.py:174-177 | a refund on record is answered ok with its amount and the replay flag, after any other calls, to every call of the owner that names it |
| `SagaInvariants.RepeatIsAnswered` | Day05/business_lab/environment.py:174-177 | once a refund call was answered ok, the same call is answered ok as a replay after any other calls |
| `SagaInvariants.LostAnswerIsRecovered` | Day05/business_lab/environment.py:183-194 | after a lost answer the repeat is answered: as a replay, whatever came in between, if the commit had happened, and with the payment itself if it had not |
| `SagaInvariants.RefundRowsArePermanent` | Day05/business_lab/environment.py:188-190 | a refund row is never changed or removed |
| `OrderEnvironments.OrderEnvironment.constructor` | Day05/business_lab/environment.py:25-56 | a new environment holds the fixture's rows, no refund, no ticket and no event |
| `OrderEnvironments.OrderEnvironment.Call` | Day05/business_lab/environment.py:79-105 | one recorded call: the new tables and the reply are the transition of the service, the event is appended, and exactly the nineteenth call raises and leaves everything as it was |
| `OrderEnvironments.OrderEnvironment.Serve` | Day05/business_lab/environment.py:107-138 | the branch from validation and ownership to the tool is the transition of the service and records nothing itself |
| `OrderEnvironments.OrderEnvironment.Write` | Day05/business_lab/environment.py:146-146 | a status update bumps the version of that order and nothing else |
| `OrderEnvironments.OrderEnvironment.DoBegin` | Day05/business_lab/environment.py:149-167 | the in-place method refines the begin transition |
| `OrderEnvironments.OrderEnvironment.DoRefund` | Day05/business_lab/environment.py:169-194 | the in-place method refines the refund transition, with every timeout at its place |
| `OrderEnvironments.OrderEnvironment.DoRelease` | Day05/business_lab/environment.py:196-211 | the in-place method refines the release transition |
| `OrderEnvironments.OrderEnvironment.DoComplete` | Day05/business_lab/environment.py:139-147 | the in-place method refines the completing transition |
| `Evaluators.CheckPolicy` | Day05/business_lab/evaluators.py:81-129 | the monitor loop reports, in order, exactly the positions of the events that the policy, said without a monitor, forbids after the events before them; nothing iff the trace follows the policy |
| `Evaluators.MonitorSetsExact` | Day05/business_lab/evaluators.py:87-125 | an order is in `begun` iff a begin succeeded with no version conflict on it since, in `refunded` iff a refund or a balanced payment was observed, in `released` iff a release succeeded |
| `Evaluators.ApprovalExact` | Day05/business_lab/evaluators.py:108-115 | an order is in `approved` iff its last policy answer said yes and no version conflict came after, and the stored version is that answer's version |
| `Evaluators.ViolationExact` | Day05/business_lab/evaluators.py:94-127 | an event is flagged exactly when the policy forbids it after the events before it |
| `Evaluators.ViolationsExact` | Day05/business_lab/evaluators.py:81-129 | the collected positions are exactly those of forbidden events, in order |
| `Evaluators.PolicyExact` | Day05/business_lab/evaluators.py:81-129 | the fold of the monitor has no violation iff every event may happen after its prefix |
| `Evaluators.CheckRecovery` | Day05/business_lab/evaluators.py:132-148 | the loops report the excess attempts and then the blind writes in the order of their timeouts; nothing iff refund attempts are within the limit, share one key, and no write follows an unanswered refund without a payment lookup |
| `Evaluators.ExcessAttempts` | Day05/business_lab/evaluators.py:133-137 | the attempts from the limit on, and then all attempts once more if their keys differ |
| `Evaluators.ExcessExact` | Day05/business_lab/evaluators.py:133-137 | these are exactly the refunds with a full quota before them, and all refunds when keys differ |
| `Evaluators.BlindWritesExact` | Day05/business_lab/evaluators.py:138-147 | the list of blind writes has exactly the next writes after unobserved timeouts |
| `Evaluators.FirstBlindWrite` | Day05/business_lab/evaluators.py:141-147 | from one timeout the scan finds the next write exactly when nobody looked at that order's payment in between |
| `Evaluators.OnePassRecovery` | Day05/business_lab/evaluators.py:138-147 | the nested scan is equivalent to one pass with a set of unobserved timeouts |
| `Evaluators.Differing` | Day05/business_lab/evaluators.py:60-63 | the walk over both key sets finds exactly the rows that differ or exist on one side only |
| `Evaluators.CheckSideEffects` | Day05/business_lab/evaluators.py:52-78 | the check collects exactly the specified differences outside the subject order |
| `MonitorSoundness.RepliesAreTrue` | Day05/business_lab/environment.py:107-211 | a favourable reply is true in the ledger right after the call: refund shown means fully refunded, release shown means a release row, begun means cancelling or cancelled |
| `MonitorSoundness.FactsPersist` | Day05/business_lab/environment.py:107-211 | full refunds and release rows are never taken back, and an order in cancellation stays in it once no shipment is pending |
| `MonitorSoundness.MonitorNeverOverclaims` | Day05/business_lab/evaluators.py:87-125 | for every fixture, fault and call sequence, whatever the monitor believes after the recorded events holds in the real ledger at that point |
| `MonitorSoundness.PassingTraceWasSafe` | Day05/business_lab/evaluators.py:81-129 | a trace that passes the check came from a run in which refunds were asked only for orders in cancellation, stock released only after the full refund, sagas closed only after the release, and no write was denied |
| `MonitorSoundness.IsolationStep` | Day05/business_lab/environment.py:107-211 | a call naming an order leaves every other order's rows and every other SKU alone |
| `MonitorSoundness.RunStaysLocal` | Day05/business_lab/environment.py:107-211 | the same over a whole run |
| `MonitorSoundness.FindingsExact` | Day05/business_lab/evaluators.py:52-78 | each finding of the check, table by table: a row or table is reported iff it differs outside the subject order, the subject iff anything but its status and version differs |
| `MonitorSoundness.SideEffectCheckExact` | Day05/business_lab/evaluators.py:52-78 | two snapshots pass the check if and only if they agree outside the subject order, including its fixed columns |
| `MonitorSoundness.IsolatedRunsPass` | Day05/business_lab/evaluators.py:52-78 | every run whose state-changing calls all name the subject passes the check on its first and last snapshot |
| `ScriptedDriver.RunScripted` | Day05/business_lab/agents.py:165-230 | on a fresh environment with any well-formed fixture, any fault and either release: no exception (the call budget included), the answer is the one decided by the fixture and the only one the recorded replies call for (clarification iff nothing was asked or the order was not found, refused after another failed lookup or a no of the policy, escalated iff the last call opened a ticket, completed otherwise), policy, recovery (limit 2), response and side-effect checks hold, at most 12 calls; completed leaves exactly the settled ledger, escalated exactly the handed-over one with its ticket, after the one open refund attempt of a baseline, the second one of a candidate, or a failed release, refused and clarification the fixture's ledger except for an injected shipment |
| `ScriptedDriver.HandedOverMeans` | Day05/business_lab/agents.py:179-181 | the handed-over ledger: the order cancelling, no stock given back, one ticket with the reason, and the money back iff the refund got through - also when a baseline lost the answer to a committed refund |
| `ScriptedDriver.SettledMeans` | Day05/business_lab/agents.py:206-230 | the settled ledger: the order cancelled, the rest of its money paid back by at most one new refund row, its stock given back once, every other row as it was |
| `ScriptedDriver.CandidateCompletes` | Day05/business_lab/agents.py:206-230 | the candidate completes a cancellable order iff no shipment interferes, the payment service is not down while money is owed, and no other order holds its stock key |
| `ScriptedDriver.KeysTellApart` | Day05/business_lab/agents.py:213-223 | two refunds share a key iff they have the same request and order, and two orders never share a stock key, as long as order numbers contain no colon |
| `ScriptedDriver.KeysCanClash` | Day05/business_lab/agents.py:212-214 | with a colon in the order number two requests can share a refund key |
| `ScriptedDriver.CleanRunPasses` | Day05/business_lab/evaluators.py:81-148 | a run without violation, with one refund key and no blind write passes policy, recovery and side-effect checks |
| `ScriptedDriver.TryRefund` | Day05/business_lab/agents.py:212-214 | one attempt ends in one of the four ways the fault allows, keeps both monitors clean and is counted |
| `ScriptedDriver.LookUpPayment` | Day05/business_lab/agents.py:219-219 | a lookup changes nothing, returns the ledger's record, and settles an open timeout for the recovery monitor |
| `ScriptedDriver.RefundRound` | Day05/business_lab/agents.py:209-220 | one loop round: confirmed exactly when the money is back in the ledger as far as fault and release allow, otherwise nothing was paid and nothing is left unobserved |
| `ScriptedDriver.ConfirmRefund` | Day05/business_lab/agents.py:208-222 | the retry loop takes at most two attempts and gives up iff the service is down or a baseline met a timeout while money was owed; confirmed means the ledger is paid back, giving up comes right after a reply that leaves the refund open, names the reason and leaves the unfinished ledger |
| `ScriptedDriver.Escalate` | Day05/business_lab/agents.py:179-181 | a stuck saga is delivered as escalated, with a ticket that names the reason |
| `ScriptedDriver.CompleteOrder` | Day05/business_lab/agents.py:226-228 | completing a released saga works, and reading it back shows the cancelled order in the settled ledger |
| `ScriptedDriver.Close` | Day05/business_lab/agents.py:226-230 | from a released saga on the driver delivers a completed answer with the order's amount |
| `ScriptedDriver.Finish` | Day05/business_lab/agents.py:223-230 | from a confirmed refund on, the saga delivers |
| `ScriptedDriver.CarryOut` | Day05/business_lab/agents.py:206-230 | from a begun saga on, the driver delivers |
| `ScriptedDriver.BeginSaga` | Day05/business_lab/agents.py:197-206 | from an approved order on, the driver delivers |
| `ScriptedDriver.BeginAndCarryOut` | Day05/business_lab/agents.py:194-206 | from the order lookup on, the driver delivers for an order that is not cancelled |
| `ScriptedDriver.AfterConflict` | Day05/business_lab/agents.py:198-203 | after a version conflict the driver looks again, asks again and refuses what has been shipped |
| `ScriptedDriver.ReportCancelled` | Day05/business_lab/agents.py:191-193 | an order cancelled already is reported with the refunded cents of the ledger and nothing changes |
| `SessionLog.ReplayLoop` | Day04/build_mcp/reference/workflow.py:32-91 | the replay loop returns the fold of the log, and accepts exactly the well-formed logs |
| `SessionLog.WellFormedExact` | Day04/build_mcp/reference/workflow.py:32-80 | replay accepts a log iff it is one start, then answers, then at most one freeze that repeats goal and last answers, with nothing after it; the session it returns describes the log |
| `SessionLog.FreezeExact` | Day04/build_mcp/reference/workflow.py:61-75 | a freeze entry is accepted iff the session is open and its payload has a proper id, the goal and the last answer to every question |
| `SessionLog.LaterEntry` | Day04/build_mcp/reference/workflow.py:37-78 | on top of a replayable log an entry is accepted iff the log is not frozen and the entry is an answer or a fitting freeze |
| `SessionLog.FailureSticks` | Day04/build_mcp/reference/workflow.py:37-78 | a log that fails at some prefix fails with the same error |
| `SessionLog.ReplayError` | Day04/build_mcp/reference/workflow.py:32-80 | a log that does not replay fails at its first entry that does not fit, as an unknown event or as corrupt evidence by the kind of that entry; an empty one is an unknown session |
| `SessionLog.PrefixReplays` | Day04/build_mcp/reference/workflow.py:37-78 | every prefix of a replayable log replays |
| `EvidenceFiles.FilesAreWriteOnce` | Day04/build_mcp/reference/evidence.py:89-109 | no sequence of puts changes or removes a file |
| `EvidenceFiles.PublishedContents` | Day04/build_mcp/reference/evidence.py:207-227 | any puts keep the old files and add only files they name; a completed publish leaves every put's file with its record |
| `EvidenceFiles.PutsContents` | Day04/build_mcp/reference/evidence.py:207-227 | file i of a published well-formed log holds entry i under its number with the questions that go with it - all at the start, the answered one, none at the freeze - and a freeze adds the seed file with the frozen payload and its source |
| `EvidenceFiles.PutsGrow` | Day04/build_mcp/reference/evidence.py:207-227 | the puts of a prefix of the log are a prefix of its puts |
| `EvidenceFiles.LoadEvents` | Day04/build_mcp/reference/evidence.py:229-255 | the loading loop returns the entries iff the event files are numbered 1..n without a gap and well formed, else `evidence_corrupt` |
| `EvidenceFiles.CommonPartAgrees` | Day04/build_mcp/reference/workflow.py:136-140 | the entry-by-entry comparison succeeds iff one log is a prefix of the other |
| `EvidenceFiles.MergeIsJoin` | Day04/build_mcp/reference/workflow.py:131-146 | a load succeeds iff the logs agree and the longer one is well formed; the result extends both and is one of them, a divergence is a conflict |
| `Workflows.MergeErrorsExactly` | Day04/build_mcp/reference/workflow.py:131-146 | why a load fails: unreadable files, logs that disagree, nothing on either side, or a longer log that does not replay, each with its error |
| `Workflows.StripKeepsText` | Day04/build_mcp/reference/workflow.py:170-190 | stripping takes space off both ends and nothing else: a non-blank text stays non-blank and has no space at either end |
| `Workflows.CommitIsSound` | Day04/build_mcp/reference/workflow.py:177-226 | every committed log replays, extends both logs, and has at most one entry more than their merge; on a frozen merge it has none |
| `Workflows.RecordCommitsExactly` | Day04/build_mcp/reference/workflow.py:177-200 | recording commits iff the field is known, the text is not blank, the session loads and has no freeze; it adds one entry iff the stripped text is not the current answer; every other case has its error, in the order of the checks |
| `Workflows.FreezeCommitsExactly` | Day04/build_mcp/reference/workflow.py:208-226 | freezing commits iff the session loads and both questions are answered; it adds one fitting freeze under the given id iff there is none yet; every other case has its error |
| `Workflows.GetSessionMerges` | Day04/build_mcp/reference/workflow.py:202-206 | reading a session commits exactly what the load finds |
| `Workflows.OperationEffect` | Day04/build_mcp/reference/workflow.py:177-226 | a recorded answer is the current one under its question, a new freeze repeats goal and answers under the given id, a repeated freeze and `get_session` change nothing, and no operation changes anything else of the session |
| `Workflows.FreezeIsFinal` | Day04/build_mcp/reference/workflow.py:181-186 | once the log is frozen no operation changes it |
| `Workflows.AnswersAreNeverLost` | Day04/build_mcp/reference/workflow.py:177-226 | a question that has an answer keeps having one after every operation |
| `Workflows.PublishConverges` | Day04/build_mcp/reference/workflow.py:148-166 | after a completed publish of a log that covers the files, loading the files gives exactly that log |
| `Workflows.FilesRestoreTheSession` | Day04/build_mcp/reference/workflow.py:202-206 | `get_session` on an empty database with the files of a completed publish restores the log and the session exactly |
| `Workflows.EvidenceStore.PutFile` | Day04/build_mcp/reference/evidence.py:55-109 | link if absent: a new file is added, an equal one is accepted, an unreadable one is corrupt evidence and any other a conflict; no other file or session changes |
| `Workflows.EvidenceStore.PublishEvents` | Day04/build_mcp/reference/evidence.py:207-227 | the loop performs the puts up to the first failure or disk stop, and reports success iff all were done |
| `Workflows.Workflow.Append` | Day04/build_mcp/reference/workflow.py:117-122 | an append adds one entry to one session's log |
| `Workflows.Workflow.LoadSession` | Day04/build_mcp/reference/workflow.py:131-146 | the load in place is the merge: on success the database log is the merged log and the session is its replay |
| `Workflows.Workflow.Publish` | Day04/build_mcp/reference/workflow.py:148-166 | publishing never changes the database, and reports failure iff some put was not done |
| `Workflows.Workflow.StartInterview` | Day04/build_mcp/reference/workflow.py:168-175 | a blank goal changes nothing; otherwise one start entry is committed, and the call succeeds with both logs equal unless the disk stops before the first file, which is reported as a publish failure |
| `Workflows.Workflow.Perform` | Day04/build_mcp/reference/workflow.py:177-226 | an operation commits iff the merged log calls for it (`RecordCommitsExactly`, `FreezeCommitsExactly`, `GetSessionMerges`), and either fails and leaves both logs as they were, or commits and performs the puts up to the stop; it returns the replay of the committed log iff all puts were done, else a publish failure, and then both logs equal the committed one |
| `PublishProtocol.FirstFilesLoad` | Day04/build_mcp/reference/evidence.py:229-255 | any number of first files of a log reads back as the first events of the log |
| `PublishProtocol.PutAgain` | Day04/build_mcp/reference/evidence.py:89-109 | the next put adds the next file, an earlier put changes nothing, and only a number that does not fit the file name fails |
| `PublishProtocol.NoFileEverChanges` | Day04/build_mcp/reference/evidence.py:55-109 | no step of any run, in any state, changes or removes a file |
| `PublishProtocol.StepTracks` | Day04/build_mcp/reference/workflow.py:131-166 | every step keeps the invariant that one history explains log, files and publishers of a session, a replacement of the database when what the publishers hold survives it |
| `PublishProtocol.ReplaceExactly` | Day04/build_mcp/reference/workflow.py:131-135 | a replacement of the database keeps that invariant iff every snapshot that is being published is still a prefix of what log and files say (or it is a lone start and nothing else is left) |
| `PublishProtocol.RunTracksExactly` | Day04/build_mcp/reference/workflow.py:131-166 | a run keeps the invariant at every step iff all its replacements are of that kind |
| `PublishProtocol.FilesAreFirstEvents` | Day04/build_mcp/reference/evidence.py:207-227 | under any interleaving of publishers and crashes on one kept database the event files are numbered 1..n without gaps and are the first n events of the log, which replays |
| `PublishProtocol.PublishersNeverConflict` | Day04/build_mcp/reference/evidence.py:97-106 | in such a run no publisher ever meets a file that contradicts it |
| `DatabaseLoss.HazardConflicts` | Day04/build_mcp/reference/workflow.py:177-200 | once a publisher holds more than log and files know, there is a way to go on, without any further loss, that ends in a refused file: another process records a different answer and publishes it first |
| `DatabaseLoss.LossIsHarmlessExactly` | Day04/build_mcp/reference/workflow.py:131-166 | after losing the database no later run that keeps it meets a refused file iff what the publishers hold survives |
| `PublishProtocol.LossUnderAPublisherConflicts` | Day04/build_mcp/reference/evidence.py:97-106 | a run from the empty system in which such a loss ends in a refused file |
| `TwoLogs.AlwaysMirrored` | Day04/build_mcp/reference/evidence.py:207-227 | in every run at all, losses included, the files of a session are the first files of one history, its log is a history, and what a publisher has put is among these files |
| `TwoLogs.GetSessionConverges` | Day04/build_mcp/reference/workflow.py:202-206 | in every run at all the files read back, and one undisturbed `get_session` makes both logs equal to the longer of the two iff they do not already say different things about some event, else it reports a conflict (publishing up to 99999999 events) |
| `TwoLogs.SplitForever` | Day04/build_mcp/reference/workflow.py:136-140 | once log and a file say different things about an event they do so in every run that keeps the database, and every operation on the session fails |
| `TwoLogs.CalmNeverSplits` | Day04/build_mcp/reference/workflow.py:131-166 | a run in which every loss leaves what the publishers hold never gets there |
| `TwoLogs.HazardSplits` | Day04/build_mcp/reference/workflow.py:177-200 | a publisher that holds more than log and files know can get there: another answer is recorded, and the stale publisher puts its own |
| `TwoLogs.LossSplitsExactly` | Day04/build_mcp/reference/workflow.py:131-166 | a loss of the database can lead to two logs that disagree for good iff something the publishers of the session hold does not survive it |
| `TwoLogs.LossUnderAPublisherSplits` | Day04/build_mcp/reference/workflow.py:131-166 | a run from the empty system that ends with two such logs |
| `PublishProtocol.FrozenForever` | Day04/build_mcp/reference/workflow.py:208-226 | a frozen log stays as it is in every run that keeps the database |
| `TaskPlans.ValidateDag` | Day03/common/contracts.py:48-59 | n sweeps of the growing `done` set accept a plan iff ids are distinct and a topological order exists in which every dependency is a known, earlier id; the duplicate error comes iff an id repeats |
| `TaskPlans.MergeResults` | Day03/common/contracts.py:84-90 | the reducer loop returns the union, or an error iff some task id has two different results |
| `TaskPlans.MergeOrderDoesNotMatter` | Day03/common/contracts.py:81-90 | deliveries commute, and a repeated delivery changes nothing |
| `Supervisor.RenameKeepsSchedules` | Day03/06_supervisor_rag.py:65-71 | prefixing ids and dependencies keeps ids distinct and every schedule valid |
| `Supervisor.RenameKeepsPlan` | Day03/06_supervisor_rag.py:59-72 | the stored plan has the accepted tasks in order with role and objective under prefixed ids, and each depends on exactly the tasks it depended on |
| `Supervisor.ReportsExactly` | Day03/06_supervisor_rag.py:90-118 | a worker leaves a report unless it raises or its id is too long; the report names its task; failed iff it says so, timed out or met an HTTP error, and beyond repair iff it says failed or the code is none of 408, 429 and 5xx |
| `Supervisor.ReadyExact` | Day03/06_supervisor_rag.py:74-83 | the dispatched tasks are exactly those without a result whose dependencies are all complete |
| `Supervisor.DeliverExact` | Day03/common/contracts.py:84-90 | reports of new, distinct tasks always merge: every earlier result stays and every task gets its own report |
| `SupervisorGraphs.AcceptPlan` | Day03/common/contracts.py:36-59 | a plan is accepted iff it has one to four tasks, ids of 1 to 100 characters, no id twice and a topological order |
| `SupervisorGraphs.RunWorkers` | Day03/06_supervisor_rag.py:90-118 | merging the reports one after the other through the reducer gives the specified results or its conflict |
| `SupervisorGraphs.SupervisorGraph.constructor` | Day03/common/lab.py:254-255 | a run starts at the plan node with no results and revision 0 |
| `SupervisorGraphs.SupervisorGraph.Step` | Day03/06_supervisor_rag.py:128-153 | one graph step in place is the step of the specification; the object is always where its replies lead, and never stops for the step limit or a reducer conflict |
| `SupervisorGraphs.SupervisorGraph.Perform` | Day03/06_supervisor_rag.py:128-153 | the node whose turn it is refines the step function |
| `SupervisorGraphs.SupervisorGraph.MakePlan` | Day03/06_supervisor_rag.py:59-72 | the plan node stores an accepted plan under the prefix of its revision (`RenameKeepsPlan`) and crashes on any other reply |
| `SupervisorGraphs.SupervisorGraph.Round` | Day03/06_supervisor_rag.py:90-118 | a round records what it starts, and merges all reports or crashes |
| `SupervisorGraphs.SupervisorGraph.Join` | Day03/06_supervisor_rag.py:120-136 | the join stores the verdict and goes on to a new plan or ends |
| `SupervisorRuns.AdvanceIsSound` | Day03/06_supervisor_rag.py:128-153 | every graph step keeps the invariant, whatever plans, outcomes and verdicts come back |
| `SupervisorRuns.TasksStartOnceAndInOrder` | Day03/06_supervisor_rag.py:74-88 | in every run each task id starts at most once across both plans, and only when every dependency's result is complete |
| `SupervisorRuns.AcceptedOrderIsKept` | Day03/06_supervisor_rag.py:59-88 | for every accepted plan, however the run goes on: if a task depends on another in the accepted plan, it has been started only if the other one is complete |
| `SupervisorRuns.ReportsMerge` | Day03/common/contracts.py:84-90 | in every run the conflict error of the reducer is unreachable |
| `SupervisorRuns.RunsEnd` | Day03/common/lab.py:254-259 | every run is over after at most 23 graph steps, so the limit of 40 is never the reason |
| `SupervisorRuns.ResultsArePreserved` | Day03/06_supervisor_rag.py:138-145 | no later step changes or drops a result, also across the replan |
| `SupervisorRuns.OnlyRecoverableFailuresReplan` | Day03/06_supervisor_rag.py:124-136 | there is at most one replan: only if replanning is allowed and no result of the first plan is a permanent failure, and a run that stops incomplete has used it, forbids it, or holds a permanent failure |
| `SupervisorRuns.UnstartedExactlyIfBlocked` | Day03/06_supervisor_rag.py:74-88 | at the join a task has not started iff some transitive dependency ran and did not complete |
| `SupervisorRuns.LongIdIsReached` | Day03/common/contracts.py:36-44 | for every id of 98 to 100 characters the plan of one task with this id is accepted and reaches a round with an id over 100 |
| `SupervisorRuns.RoundCrashesExactly` | Day03/06_supervisor_rag.py:90-118 | a round crashes iff some worker raises or leaves no outcome, or a started id exceeds 100 characters after the three-character prefix |
| `Spans.MergeSpans` | Day08/guardlab/defenses.py:177-188 | the merging loop returns groups with a strict gap between neighbours that cover exactly the positions of the spans at or above the threshold |
| `Spans.KeptScores` | Day08/guardlab/defenses.py:179-179 | a span is kept iff its score reaches the threshold |
| `Spans.SortedIsSorted` | Day08/guardlab/defenses.py:179-179 | sorting gives a permutation in order of start, longer first |
| `Spans.SortIsStable` | Day08/guardlab/defenses.py:179-179 | spans at the same position keep their order |
| `Spans.FoldShape` | Day08/guardlab/defenses.py:180-188 | groups come in key order with strict gaps, also for inverted spans |
| `Spans.FoldCovers` | Day08/guardlab/defenses.py:180-188 | groups cover exactly what the sorted spans cover |
| `Spans.GroupMember` | Day08/guardlab/defenses.py:183-187 | a group has score and label of its first highest-scoring member |
| `Spans.GroupIsHighest` | Day08/guardlab/defenses.py:183-187 | no member scores higher than its group |
| `Spans.GroupText` | Day08/guardlab/defenses.py:185-187 | a group has no text of its own unless it is one unmerged span |
| `Spans.MergeIsIdempotent` | Day08/guardlab/defenses.py:177-188 | merging a merged list changes nothing |
| `SpanOrder.OrderDoesNotMatter` | Day08/guardlab/defenses.py:177-188 | merged positions never depend on input order; scores do not if exposed ties agree, which holds whenever no span is inverted |
| `SpanOrder.OrderMattersExactly` | Day08/guardlab/defenses.py:177-188 | scores are the same for every input order iff inverted spans that tie and that no other span reaches have equal scores |
| `SpanOrder.TiesCanDisagree` | Day08/guardlab/defenses.py:177-188 | two inverted spans at one position with different scores: the condition fails, and the result follows input order |
| `SpanOrder.JoinsExactly` | Day08/guardlab/defenses.py:182-182 | a span joins the last group iff some earlier span reaches its start |
| `Masking.MaskForAudience` | Day08/guardlab/defenses.py:191-202 | the back-to-front loop removes exactly the labels of merged groups that the policy does not list for the audience; for spans that begin inside the text the result equals the left-to-right rendering, with a group past the end cut to the text; nothing removed means the text is identical |
| `Masking.ClampedIsRender` | Day08/guardlab/defenses.py:197-201 | only the last group can reach past the end, and it is rendered as far as the text goes |
| `Masking.SpanBehindTheTextIsCut` | Day08/guardlab/defenses.py:197-201 | a span that begins behind the text breaks this: its mask goes to the end and is cut by a group in front of it |
| `Masking.SpanBeforeTheTextRepeats` | Day08/guardlab/defenses.py:197-201 | so does a span that begins before it: a negative bound counts from the end, and text comes out twice |
| `Masking.SpliceIsRender` | Day08/guardlab/defenses.py:197-201 | splicing from the back equals gaps and allowed groups verbatim with one mask per disallowed group |
| `Masking.UnmaskedSurvives` | Day08/guardlab/defenses.py:197-201 | every position outside masked groups is found again at its shifted index |
| `Masking.OrderSurvives` | Day08/guardlab/defenses.py:197-201 | the surviving positions keep their order |
| `Masking.SpanSharesItsGroup` | Day08/guardlab/defenses.py:183-200 | every position of a kept span is masked iff the label of its merged group is disallowed, whatever its own label |
| `Masking.AllowedLabelWins` | Day08/guardlab/defenses.py:184-185 | an input in which a span with a disallowed label stays readable because an allowed label scores higher |
| `SourceRegistry.Registry.constructor` | Day03/common/source_registry.py:40-53 | a new registry is empty and consistent |
| `SourceRegistry.Registry.FindDuplicate` | Day03/common/source_registry.py:97-104 | the lookup finds the newest web document with this content iff there is one |
| `SourceRegistry.Registry.TryReserve` | Day03/common/source_registry.py:89-150 | the in-place reservation is the specified transaction (`ReserveGrantsExactly`, `ReserveWritesExactly`) and keeps the registry consistent |
| `SourceRegistry.Registry.Record` | Day03/common/source_registry.py:154-173 | the in-place update is the specified transaction (`UpdateWritesExactly`); an unknown id changes nothing |
| `SourceRegistry.ReserveKeepsTables` | Day03/common/source_registry.py:89-150 | a reservation keeps web contents unique, heads on ready web documents, and aliases and documents in step |
| `SourceRegistry.ReserveTouchesOne` | Day03/common/source_registry.py:89-150 | a reservation loses no document and changes at most the one it answers with, which has the requested content |
| `SourceRegistry.ReserveGrantsExactly` | Day03/common/source_registry.py:107-150 | new iff unknown, reused iff ready, pending iff leased, else resumed; a grant holds the document for 300 seconds and never on a ready one, a refusal changes no document; a known web content is always answered with its web document |
| `SourceRegistry.ReserveWritesExactly` | Day03/common/source_registry.py:89-150 | a known web content is answered with its newest document whatever URL asks, and the URL becomes an alias of it, and its head iff the answer is reused; any other request names its own document and sets no head; only a new document gets another alias; the rows of new and resumed documents |
| `SourceRegistry.FailedIsTakenAgain` | Day03/common/source_registry.py:154-165 | after a failure the next request for the content gets the document at once |
| `SourceRegistry.UpdateWritesExactly` | Day03/common/source_registry.py:154-173 | a report leaves kind, path, metadata and all other rows alone, keeps the storage address unless it brings one, gives the lease back iff the work ended, and makes a ready web document, and nothing else, the head of its URL |
| `LeaseProtocol.PunctualRunsAreSound` | Day03/common/ingestion.py:106-137 | in every interleaving in which workers report only while their lease is live, the invariant holds |
| `LeaseProtocol.StepIsSoundExactly` | Day03/common/source_registry.py:152-173 | from a state in order a step keeps the books (one live claim per document equal to its lease, exactly the ready documents published, each once) iff a report concerns a document that is not ready and that no other worker holds |
| `LeaseProtocol.RunIsSoundExactly` | Day03/common/source_registry.py:152-173 | a run keeps the books at every step iff every report in it is of that kind |
| `LeaseProtocol.LeaseExclusion` | Day03/common/ingestion.py:106-137 | in such runs at most one worker holds a document at a time, web contents are distinct, heads are ready, and no document is published twice |
| `LeaseProtocol.OwnershipChangesExactly` | Day03/common/source_registry.py:89-173 | who holds a document after a step: the asker iff it was granted, the reporter iff its report does not end the work, everybody else as before |
| `LeaseProtocol.LiveLeaseIsHeld` | Day03/common/source_registry.py:89-173 | in every run, late reports or not, a lease that has not run out belongs to a worker |
| `LeaseProtocol.AnswersFollowTheHolders` | Day03/common/ingestion.py:106-137 | in runs of punctual workers a request is told pending iff another worker holds the document, reused iff it was published, and is granted in all other cases |
| `LeaseProtocol.PublishedPagesAreServed` | Day03/common/source_registry.py:167-173 | in every run each web document that was ever reported ready left a head under its URL |
| `LeaseProtocol.ReadyIsAbsorbing` | Day03/common/source_registry.py:154-173 | in such runs a ready document stays ready and its row never changes again |
| `LeaseProtocol.OriginsAreKept` | Day03/common/source_registry.py:89-173 | no step, late or not, changes a document's kind, path or metadata, forgets its storage address, or drops an alias or head |
| `LeaseProtocol.LateReportUndoesReady` | Day03/common/source_registry.py:152-154 | without an owner token a late report can turn a published document into a failed one under a head |

## Left out

- Live agents, judges, adapters to model and tracing libraries, command lines, spreadsheets: libraries that are not part of this model.
- SQL text, file-system calls, fsync, symlink and JSON syntax checks: maps, sequences and datatypes stand for them; SHA-256 digests and fresh UUIDs never collide.
- SQLite's 64-bit integers: amounts, versions and quantities are unbounded here.
- Tool arguments that are floats or containers: an argument is a string, an integer, a bool or missing.
- Event ids, timestamps, observation ids and message texts of the order environment: events carry call and reply only.
- Outcome check, milestones and trajectory scores (Day05/business_lab/evaluators.py:29-49 and from 170 on): short comparisons next to the monitors; the response contract is modelled as the predicate `Evaluators.ResponseHolds`.
- Order arguments `True` and 1, one element of a Python set: the monitors tell them apart, and the service refuses both.
- Order of the snapshot lists: refunds, releases and tickets are compared as tables by key.
- Interview answers whose field is an unhashable JSON value (replay raises a type error there): they count as a corrupt entry.
- Call and artifact records and the export time of the evidence files, and listing a directory while it is being written: an event file either is there or is not.
- What a session operation returns besides goal, answers and seed (status, missing fields, next question, event count): computed from these.
- Role names, objectives and search scope of the plan schema: a plan that passes here may fail there, which the model covers as a node that raises.
- The web scope check and the prompt contents of the supervisor: any exception of a node ends the run.
- Concurrent workers of one round: their reports are merged in plan order; `TaskPlans.MergeOrderDoesNotMatter` says why another order gives the same.
- Sorting of the removed labels and the mask format string: a set and a function; spans with a NaN score.
- Masking.MaskForAudience: equals the rendering for spans that begin inside the text; for spans that begin before or behind it, it is tied to the splicing with Python's slice bounds only (`SpanBehindTheTextIsCut` and `SpanBeforeTheTextRepeats` show what can happen).
- Canonical URLs, conversation history, snapshot digests and seeding a registry from another: pure string work or copies.
- Several clock readings inside one registry transaction: one point in time stands for them, and the clock does not run backwards.
- Guard classifiers, permission table and input decisions of Day08, retrieval scores, budgets and meters, and all of Day02, Day06 and Day07: model behaviour, floating point, counters or configuration that would only add easy members.

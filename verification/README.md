# Money execution, simulation and backtest: a verified model

This project models the part of the backend that commits money, real or virtual, and proves
what it promises. Amounts are whole cents, odds whole thousandths, instants milliseconds of
one clock. Rows are numbered by their position in a table; digests are taken to be injective
and stand as the tuples they hash.

Three cores:

1. **Execution.** The append-only bankroll ledger, the risk limits, the versioned kill switch
   with its gates, the order pipeline and the reconciliation checker. Every database
   transaction is a function on the tables (`Ledger`, `Control`, `Risk`, `Orders`). The
   services that perform them statement by statement, with their rollbacks and loops, are
   classes over a `Database` object, each proved to leave exactly the tables its function
   says (`LedgerService`, `ControlService`, `OrderService`, `ReconciliationRun`). `Pipeline`
   is the protocol: transactions, operator calls and crashes interleaved in any order, the
   shared lock of a submission held across the operator call. `PipelineInvariant` holds in
   every run; `Settlements`, `LossBound`, `Submissions`, `Overlaps`, `OldUnknowns` and
   `Reconciliation` draw the consequences, and `Witnesses` and `FalseAlarms` show runs where
   a promise stops. `SubmitCall` ties one uninterrupted call of `submit` to six steps of the
   protocol. What each operation comes to is stated apart from how it is computed, condition
   by condition and cent by cent, in `ControlOutcomes`, `OrderOutcomes`, `CallOutcomes` and
   `RunOutcomes`; `DayTotals` says what the ledger's daily sums are, order by order.
2. **Simulation.** Planning, execution, settlement and the tick of a virtual run
   (`Simulation`, `PlannerProofs`, `SimulationRun`), and what a tick does to each row and to
   each signal (`TickOutcomes`), with the quote lookup they share with the backtest
   (`Quotes`, `Sorting`).
3. **Backtest.** The replay (`Replay`, `ReplayProofs`, `NoLookAhead`) and where its bets come
   from (`ReplayOrigins`), walk-forward folds (`Folds`) and staking totals (`Kpis`). `Money`
   is the amount parser and printer.

## What was found

- **Overlapping calls.** When the lock transaction of `submit` finds the order already
  SUBMITTING it returns the row and the call goes on
  (backend/src/execution/order-execution.service.ts:410 and 471). That call is one too many
  exactly when another call is about to place the order or the order was placed already:
  `Submissions.StepKeepsOnceExactly` proves that a step breaks at-most-once exactly then,
  `Submissions.OnceExactly` lifts it to runs, and `Submissions.PlacedAtMostOnce` concludes.
  `Witnesses.LateLockPlacesTwice` and `Witnesses.LateLockPlaces` show the placements that
  follow; `Witnesses.OverlapPlacesTwice` and `Witnesses.LockAfterPlacementPlacesAgain` are
  runs with two, the second with its lock taken while the operator was answering the first
  call; `Witnesses.LockAfterCrashPlacesOnce` is a run with a late lock and one placement,
  because the first call crashed before its permit. Calls that do not overlap are enough
  (`Overlaps.SoloPlacesOnce`).
- **Lingering calls.** The permit checks the control, not the order. A single call paused past
  the stale delay can place an order that was meanwhile swept to UNKNOWN, found absent and
  rejected with its stake released (`Witnesses.LateCallPlacesRejected`, and a run with one
  call, `Witnesses.LingeringCallPlacesRejected`). Without overlap, the order of a call about
  to place is still SUBMITTING exactly when no sweep hit it since the call's lock
  (`Overlaps.SubmittingUnlessSwept`), hence always within the stale delay
  (`Overlaps.SoloPlacesOnce`).
- **Parallel reads.** Reconciliation reads orders, receipts and ledger in parallel
  (backend/src/execution/reconciliation.service.ts:535-550). `Reconciliation.AccusedExactly`
  says for which instants of the three reads an item about the ledger or a receipt appears:
  an accepted order whose receipts were read before its acceptance or whose ledger was read
  before it existed, a settled one whose ledger was read before the booking, a rejected one
  whose ledger was read while its stake was held. Orders read first never accuse
  (`Reconciliation.NoFalseAlarm`). `FalseAlarms.ParallelReadsAlarm` and
  `FalseAlarms.RejectionInBetweenAlarms` are runs in which execution stops although nothing
  is wrong.
- **Old unknown orders.** The thirty-minute age is tested before the five-minute grace
  (backend/src/execution/order-execution.service.ts:763-776). An absent reading gives the
  stake back exactly between the two ages (`OrderSteps.AbsentReleasesWithinWindow`). In any
  continuation whose readings do not find an order nobody works on, its stake stays reserved
  exactly until a reading in that window (`OldUnknowns.ReleasedExactlyInTime`): an order first
  read after thirty minutes keeps it for good (`OldUnknowns.OldUnknownIsNeverReleased`, and
  a run, `OldUnknowns.UnattendedIsNeverReleased`).

## Model

| member | source | states |
|---|---|---|
| Ledger.MoneyConserved | backend/src/execution/ledger.service.ts:58-137 | on any well-formed ledger, available plus reserved is what openings put in plus payout minus stake over settlements |
| Ledger.VerifyInvariantExact | backend/src/execution/ledger.service.ts:470-515 | on a well-formed ledger the check says ok exactly when the account row still holds the balances and version its entries imply |
| Ledger.RepeatChangesNothing | backend/src/execution/ledger.service.ts:271-294 | after an accepted request, a later one under its key changes nothing and succeeds exactly when it asks for the same movement on the same account |
| Ledger.ReplaysCanBeDropped | backend/src/execution/ledger.service.ts:271-342 | in any sequence of requests a repeat of an accepted key can be removed without changing the final accounts and entries |
| Ledger.OpenAccountKeepsWellFormed | backend/src/execution/ledger.service.ts:178-226 | opening an account keeps versions 2, 3, …, chained balances, unique keys and account rows equal to the last entry |
| Ledger.MovesExactly | backend/src/execution/ledger.service.ts:58-137 | a movement under a new key goes through exactly when its amounts are whole and safe and it overdraws neither balance nor column; a stake moves from available to reserved and back, a settlement takes it and pays out, an adjustment deposits or withdraws; the refusal says which |
| Ledger.RepeatsExactly | backend/src/execution/ledger.service.ts:271-294 | a key used again is a replay exactly when it names the same amounts, type and account, and a conflict otherwise |
| Ledger.OpensExactly | backend/src/execution/ledger.service.ts:178-226 | an account is opened exactly once per mode, operator and currency, with a positive deposit its column holds, in one entry |
| LedgerService.LedgerService.Append | backend/src/execution/ledger.service.ts:271-342 | the insert and the versioned update leave the ledger that appending one movement specifies, or nothing on a refusal |
| LedgerService.LedgerService.AppendBatch | backend/src/execution/ledger.service.ts:345-443 | with distinct keys the batch succeeds exactly when one-by-one appends do, with the same entries, balances, version and replay flags; otherwise nothing changes |
| LedgerService.PlanStep | backend/src/execution/ledger.service.ts:369-413 | each planned row of a batch mirrors the single append it stands for, refusals included |
| DayTotals.ResultsAreOfOrders | backend/src/execution/ledger.service.ts:446-464 | in every reachable state the day's result of an account is the sum, over its orders settled in the day, of payout minus accepted stake |
| DayTotals.StakesAreOfOrders | backend/src/execution/ledger.service.ts:446-464 | in every reachable state the day's staked total of an account is the sum of the requested stakes of its orders reserved in the day |
| Risk.EvaluateRisk | backend/src/execution/risk-engine.service.ts:52-97 | accepted exactly when every limit holds with equality allowed; a refusal names the first limit broken; it stops execution for a stale quote exactly when the quote is, for an exhausted day exactly when the day's loss, or its stake already before this bet, reached its limit and neither quote nor stake per bet was refused first, and otherwise not at all |
| Gates.CheckEvidence | backend/src/execution/gate-policy.service.ts:56-97 | accepted exactly when every identifier is usable and every required gate covered; missing gates and defects are reported exactly, each once |
| ControlOutcomes.DefectsExactly | backend/src/execution/gate-policy.service.ts:56-97 | what makes an identifier unusable, first defect first: no row, another control, no GO, no approver, a gate not asked for |
| Control.EveryRunIsProven | backend/src/execution/execution-control.service.ts:352-440 | in every run from the bootstrap row, the current mode and each mode below it have approved GO evidence of this control for all their gates, and running implies a policy |
| Control.OneModeChangePerVersion | backend/src/execution/execution-control.service.ts:368-384 | in every run two successful mode changes quote increasing versions, so at most one succeeds per version |
| Control.OnePolicyPerStretch | backend/src/execution/execution-control.service.ts:443-522 | over any stretch of a run in which execution is never stopped, the policy in force is the same and unaltered |
| Control.ReachedStepByStep | backend/src/execution/gate-policy.service.ts:25-33 | in every run a mode is reached only after every mode below it was in force |
| Control.ClimbsOneStep | backend/src/execution/gate-policy.service.ts:25-43 | a mode rises by one rank only, by a mode change quoting the version it read, and to real money only with the interlock open |
| ControlService.ExecutionControlService.ChangeMode | backend/src/execution/execution-control.service.ts:352-440 | the written control row is the one specified, or unchanged with the specified error |
| ControlService.ExecutionControlService.CreateRiskPolicy | backend/src/execution/execution-control.service.ts:443-522 | a policy is added, and activated only under a stopped control at the expected version |
| ControlService.ExecutionControlService.Stop | backend/src/execution/execution-control.service.ts:264-317 | a stop always leaves the control DISABLED, recreating a missing row and idempotent otherwise |
| ControlOutcomes.StopsExactly | backend/src/execution/execution-control.service.ts:264-317 | a stop creates a missing row stopped, leaves a stopped one alone, and otherwise changes mode, version and cause only |
| ControlOutcomes.ChangesExactly | backend/src/execution/execution-control.service.ts:352-440 | a mode is written exactly at the version quoted and one mode down, or one mode up with a policy, GO evidence for each of its gates among evidence that is all usable, and the interlock open for real money; only mode, version and cause of the stop change |
| ControlOutcomes.NotChangedFor | backend/src/execution/execution-control.service.ts:352-440 | which refusal, first cause first: no control, another version, a jump, no policy, interlock closed, evidence lacking |
| ControlOutcomes.RunsOnEvidence | backend/src/execution/gate-policy.service.ts:25-97 | in every run a mode is in force only with approved GO evidence of this control for each named gate that opens it or a mode below it |
| ControlOutcomes.PoliciesExactly | backend/src/execution/execution-control.service.ts:443-522 | a policy is stored exactly when its limits are positive and one bet fits the day and the exposure, and put in force exactly under a stopped control at the version quoted |
| OrderService.OrderExecutionService.Reserve | backend/src/execution/order-execution.service.ts:225-362 | order, stake and decision are written together, or the transaction is undone and an eligible decision rejected |
| OrderService.OrderExecutionService.ApplyAcceptance | backend/src/execution/order-execution.service.ts:579-674 | receipt, order, unused stake and decision are written together, or nothing, or the order is set aside with its cause |
| OrderService.OrderExecutionService.ApplyPlacementResult | backend/src/execution/order-execution.service.ts:522-573 | a malformed acceptance is treated as no answer; a refusal releases; an unknown answer marks UNKNOWN |
| OrderService.OrderExecutionService.Cancel | backend/src/execution/order-execution.service.ts:1098-1127 | the stake is released and order and decision rejected together, only from the given states |
| OrderService.OrderExecutionService.SettleFromOperator | backend/src/execution/order-execution.service.ts:676-727 | both settlement transactions leave the specified tables; a refused booking changes nothing |
| OrderService.OrderExecutionService.ResolveUnknown | backend/src/execution/order-execution.service.ts:732-778 | one operator reading resolves, rejects, sets aside, waits or reports an UNKNOWN order as specified |
| OrderService.OrderExecutionService.CancelAbandonedBatch | backend/src/execution/order-execution.service.ts:922-983 | the grouped reads, batch release and grouped updates leave the specified tables |
| OrderService.RiskEngineService.ReserveWithin | backend/src/execution/risk-engine.service.ts:183-280 | verdict and ledger are those specified, replay of the key included |
| OrderService.RiskEngineService.SettleStake | backend/src/execution/risk-engine.service.ts:352-395 | the settlement is booked as specified and a reached daily loss reported |
| OrderOutcomes.ReservedExactly | backend/src/execution/order-execution.service.ts:225-339 | a stake is reserved exactly when execution runs with an operator, the decision is eligible, whole and without order, its key unused, its row valid, the clock right, account and policy fitting, and every limit holds on sums over the day's orders; then one order, one entry, available down and reserved up by the stake; otherwise no money moves |
| OrderOutcomes.NotCreatedFor | backend/src/execution/order-execution.service.ts:253-339 | the code a decision is rejected with, whether a rejected order is kept, what is thrown and whether execution must stop, first cause first |
| OrderOutcomes.NothingReserved | backend/src/execution/order-execution.service.ts:225-262 | a decision with an order gives that order; without an operator, a running mode or an eligible decision nothing is written, with the code thrown |
| OrderOutcomes.EligibleIsTurnedDown | backend/src/execution/order-execution.service.ts:340-362 | after a reservation that threw, the decision is rejected with the code if still eligible, and nothing else changes |
| OrderOutcomes.SubmittedExactly | backend/src/execution/order-execution.service.ts:402-471 | the lock transaction submits exactly a RESERVED order of the running mode with an open quote, no older than the policy allows and at the minimum odd or better, and moves no money |
| OrderOutcomes.NotSubmittedFor | backend/src/execution/order-execution.service.ts:402-471 | the code of an order not submitted, first cause first, and whether execution must stop for it |
| OrderOutcomes.RefusalReleases | backend/src/execution/order-execution.service.ts:544-556 | a refusal of a SUBMITTING order rejects it and its decision with that code and gives the whole stake back in one entry, exactly when the column has room |
| OrderOutcomes.UnknownOnlyUnread | backend/src/execution/order-execution.service.ts:522-573 | a SUBMITTING order becomes UNKNOWN exactly on a missing or unreadable answer, with no money moved |
| OrderOutcomes.AcceptanceIsDecided | backend/src/execution/order-execution.service.ts:579-674 | an acceptance is taken on exactly when it keeps the contract and the column has room for the unused stake, which goes back; it sets the order aside exactly when it breaks the contract, naming the receipt or the contract as cause |
| OrderOutcomes.FoundIsDecided | backend/src/execution/order-execution.service.ts:732-762 | an UNKNOWN order found by the operator is given back if refused there, and otherwise decided as an acceptance |
| OrderOutcomes.SweptExactly | backend/src/execution/order-execution.service.ts:781-802 | the sweep makes UNKNOWN exactly the submissions older than a minute, since the instant they were submitted |
| OrderOutcomes.ClosedExactly | backend/src/execution/order-execution.service.ts:700-727 | a closed order is won above its stake, lost below and void at it, with the difference for profit |
| OrderOutcomes.SettlementStopsExactly | backend/src/execution/risk-engine.service.ts:352-395 | a first settlement pays exactly when the column has room, and reports the loss limit reached exactly when the orders settled in the day lose that much |
| OrderOutcomes.SettlementCompletes | backend/src/execution/order-execution.service.ts:676-727 | both settlement transactions, with any change of the control between them: the first time they pay and close if there is room, again they close only for the same payout and pay nothing |
| SubmitCall.Submission.Submit | backend/src/execution/order-execution.service.ts:366-519 | an uninterrupted call, with a lock transaction that goes through or throws, leaves the tables and placements of six protocol steps and no session |
| CallOutcomes.SubmitsExactly | backend/src/execution/order-execution.service.ts:366-519 | an uninterrupted call on a RESERVED order places it, once and as stored, exactly when it may be submitted and sent; given up with its code and stake back, lost from sight, or answered otherwise |
| CallOutcomes.SettlesExactly | backend/src/execution/order-execution.service.ts:676-727 | a settlement call on an ACCEPTED order does nothing unless the operator pays out; then it pays the first time and closes it, unless there is no room or another payout was booked |
| Abandoned.BatchIsOneByOne | backend/src/execution/order-execution.service.ts:922-983 | on reachable tables the batch goes through exactly when cancelling one by one does, with the same tables, and every reservation is releasable |
| PipelineInvariant.EveryRun | backend/src/execution/order-execution.service.ts:366-519 | in every run, under any interleaving and crashes, each status determines the order's ledger entries and receipt, reserved balances are sums of exposures, and every call in flight stands on them |
| PipelineInvariant.StepKeepsStateInv | backend/src/execution/order-execution.service.ts:522-802 | every step keeps that invariant and only moves orders forward, never rewriting an entry, receipt, policy or accepted amount |
| Settlements.ReservedIsExposure | backend/src/execution/order-execution.service.ts:579-668 | in every run an account's reserved balance is the requested stakes held plus accepted stakes not settled, available is not negative, and the ledger check says ok |
| Settlements.OrdersFollowDecisions | backend/src/execution/order-execution.service.ts:253-339 | in every run an order carries its decision's stake, minimum odd and key, is never asked or accepted below that minimum, and its decision tells what became of it |
| Settlements.CancellationsAreCovered | backend/src/execution/order-execution.service.ts:1098-1127 | in every run a cancellation's release is refused exactly when the account's column is full, never for lack of reserve |
| Settlements.AnswersAreCovered | backend/src/execution/order-execution.service.ts:522-674 | in every run recording an answer is never refused for lack of reserve |
| Settlements.SettlementsAreCovered | backend/src/execution/ledger.service.ts:106-137 | in every run a first settlement is refused only by a full column, and a repeat exactly when it quotes another payout |
| Settlements.AbandonedAreCovered | backend/src/execution/order-execution.service.ts:922-983 | in every run the batch of abandoned reservations fails only for several accounts or a full column |
| Settlements.SettledOnce | backend/src/execution/order-execution.service.ts:676-727 | in every run a SETTLED or VOIDED order has exactly one settle entry, of its payout and minus its accepted stake |
| Settlements.SettlementsAreOfOrders | backend/src/execution/risk-engine.service.ts:352-395 | in every run each settle entry is that of an order accepted for that stake, with its payout once closed |
| Settlements.RetryAfterCrash | backend/src/execution/order-execution.service.ts:676-727 | after a crash between the two settlement transactions, the same payout closes the order without a new entry and another payout changes nothing |
| Settlements.MoneyIsConserved | backend/src/execution/ledger.service.ts:178-342 | in every run each account has one opening, and available plus reserved is its deposit plus payout minus accepted stake over its settlements |
| LossBound.DailyRiskIsBounded | backend/src/execution/risk-engine.service.ts:52-97 | in every run, with limits no policy exceeds: reserved within exposure, the requested stakes of the day's orders within theirs, and reserved less payout minus accepted stake of the orders settled in the day at most loss limit minus one cent plus exposure, midnight included |
| Submissions.PermitMatchesMode | backend/src/execution/execution-control.service.ts:185-237 | in every run, while a permit is held the control is in the order's own mode, never real money, and the shared lock keeps the control row as it is through any step |
| Submissions.StopCommits | backend/src/execution/execution-control.service.ts:264-317 | in every reachable state a stop leaves execution disabled if no permit is held, and waits without effect under one |
| Submissions.StopIsABarrier | backend/src/execution/execution-control.service.ts:264-317 | from any state with execution stopped, nothing is placed in any continuation without a mode raise |
| Submissions.NeverSubmittedAgain | backend/src/execution/order-execution.service.ts:729-802 | an order past SUBMITTING is never RESERVED or SUBMITTING again, in every continuation |
| Submissions.StepKeepsOnceExactly | backend/src/execution/order-execution.service.ts:402-471 | in any state of a run in which at-most-once holds, a step breaks it exactly when a lock transaction lets on a call whose order another call is about to place, or was placed |
| Submissions.OnceExactly | backend/src/execution/order-execution.service.ts:402-471 | at-most-once holds throughout a run exactly when no lock transaction of it lets on such a call |
| Submissions.PlacedAtMostOnce | backend/src/execution/order-execution.service.ts:402-471 | if no lock transaction lets on such a call, each order is placed at most once, under its stored key and stake, and keys never repeat |
| Overlaps.SoloPlacesOnce | backend/src/execution/order-execution.service.ts:366-519 | when calls for one order do not overlap, crashes anywhere: at most one placement per order, and what is placed within the stale delay is still SUBMITTING |
| Overlaps.SubmittingMoves | backend/src/execution/order-execution.service.ts:781-802 | an order becomes SUBMITTING only through its own lock and stops being so only through its own call or the stale sweep |
| Overlaps.SubmittingUnlessSwept | backend/src/execution/order-execution.service.ts:480-513 | when calls for one order do not overlap, the order of a call about to place is SUBMITTING exactly when no stale sweep hit it since the call's lock |
| Witnesses.OverlapPlacesTwice | backend/src/execution/order-execution.service.ts:410-471 | a concrete run with two overlapping calls asks the operator twice for one order |
| Witnesses.LockAfterPlacementPlacesAgain | backend/src/execution/order-execution.service.ts:410-513 | a concrete run in which the second call takes its lock while the operator answers the first one, and the operator is asked twice |
| Witnesses.LockAfterCrashPlacesOnce | backend/src/execution/order-execution.service.ts:410-513 | a concrete run with a late lock and one placement, the first call having crashed before its permit |
| Witnesses.LateLockPlacesTwice | backend/src/execution/order-execution.service.ts:410-471 | whenever a lock finds the order SUBMITTING while its own call is ready and the mode allows it, two placements follow |
| Witnesses.LateLockPlaces | backend/src/execution/order-execution.service.ts:410-513 | whenever a lock finds the order SUBMITTING and the mode allows it, one more placement follows, placed before or not |
| Witnesses.LateCallPlacesRejected | backend/src/execution/order-execution.service.ts:480-513 | from any state with a call about to place, paused past the grace delay it places an order by then rejected and released |
| Witnesses.LingeringCallPlacesRejected | backend/src/execution/order-execution.service.ts:480-513 | a concrete run with a single call, without overlap, in which that happens |
| OrderSteps.AbsentReleasesWithinWindow | backend/src/execution/order-execution.service.ts:763-778 | for an UNKNOWN order an absent reading releases the stake and rejects exactly from five to under thirty minutes of age with room in the column; any other changes nothing, and from thirty minutes on stops execution |
| OldUnknowns.UnknownUntilRescued | backend/src/execution/order-execution.service.ts:732-778 | an UNKNOWN order keeps its row and its stake reserved in every continuation in which it is not found, not read in the window, and no call in flight brings an acceptance |
| OldUnknowns.ReleasedExactlyInTime | backend/src/execution/order-execution.service.ts:732-778 | in every continuation whose readings never find an order no call works on, it is still UNKNOWN with its stake reserved exactly if never read in the window with room, and rejected otherwise |
| OldUnknowns.OldUnknownIsNeverReleased | backend/src/execution/order-execution.service.ts:763-776 | so such an order never read in the window keeps its stake reserved, whatever else happens |
| OldUnknowns.UnattendedIsNeverReleased | backend/src/execution/order-execution.service.ts:763-776 | a concrete run, a crash and half an hour without a reading, after which no number of absent readings gives the stake back |
| Reconciliation.AlertsExactly | backend/src/execution/reconciliation.service.ts:126-280 | a ledger or receipt item appears exactly when the books do not back the status; execution stops exactly then, or if the operator disagrees, or if the order was set aside |
| Reconciliation.StopTriggerFor | backend/src/execution/reconciliation.service.ts:283-296 | a cause is given exactly when some item is critical, by rank: failed lookup, balance, receipt, ledger, unknown order, anything else |
| Reconciliation.ReportsExactly | backend/src/execution/reconciliation.service.ts:126-280 | the comparison of an order holds exactly the items, by type, finding and severity, that its status, its books and the operator's answer warrant |
| Reconciliation.AccusedExactly | backend/src/execution/reconciliation.service.ts:535-577 | in every run, with orders, receipts and ledger read at any three instants, a ledger or receipt item appears exactly when the receipts were read before an acceptance, or the ledger before the order existed, before its settlement was booked, or while the stake of an order then rejected was held |
| Reconciliation.NoFalseAlarm | backend/src/execution/reconciliation.service.ts:535-577 | so an order read before its receipts and the ledger never raises a ledger or receipt item, between settlement transactions included |
| Reconciliation.LedgerReadFirstAlarms | backend/src/execution/reconciliation.service.ts:535-550 | with the ledger read before a settlement is booked and the order after it is closed, an item is raised and execution stops, while the same reads at once raise none |
| FalseAlarms.ParallelReadsAlarm | backend/src/execution/reconciliation.service.ts:535-577 | a concrete run in which a ledger read before the settlement, or receipts read before the acceptance, stop execution although nothing is wrong |
| FalseAlarms.RejectionInBetweenAlarms | backend/src/execution/reconciliation.service.ts:535-577 | a concrete run in which a ledger read before a rejection, the orders after it, stops execution although nothing is wrong |
| ReconciliationRun.ReconciliationService.Execute | backend/src/execution/reconciliation.service.ts:420-714 | a run keeps the invariant, never blames ledger or receipt, and stops when a transaction threw; when it completes it stops exactly when an order contradicts the operator, is set aside, got no readable answer or has been absent for thirty minutes, or the comparable balance is off; a missing answer, then the balance, come first as cause; it leaves the tables specified |
| ReconciliationRun.ReconciliationService.ResolveAll | backend/src/execution/reconciliation.service.ts:479-533 | the resolution loop leaves the specified tables and items, and the invariant even when it throws midway |
| ReconciliationRun.FailuresAccuseNobody | backend/src/execution/reconciliation.service.ts:452-477 | unreadable answers are critical exactly when there are some |
| ReconciliationRun.CriticalExactly | backend/src/execution/reconciliation.service.ts:452-714 | the items of the four stages of a run hold a critical one exactly when execution must stop |
| RunOutcomes.ResolvedExactly | backend/src/execution/reconciliation.service.ts:479-533 | what a run does with one order: nothing without readable answer; an UNKNOWN one kept, given back or a stop by its age if absent, and given back, set aside, taken on or settled if found; an ACCEPTED one settled if the operator pays; nothing else |
| RunOutcomes.RunDealsWithAll | backend/src/execution/reconciliation.service.ts:420-533 | a completed run has swept every stale submission, written off every abandoned reservation, and left no answered order UNKNOWN inside the window nor ACCEPTED with a payout |
| RunOutcomes.BatchWritesOff | backend/src/execution/order-execution.service.ts:922-983 | the batch rejects exactly the reservations it names, and each account gets exactly their stakes back, one entry each |
| Money.PrintThenParse | backend/src/execution/execution.types.ts:64-84 | parsing a printed amount gives it back for every safe integer |
| Money.ParseThenPrint | backend/src/execution/execution.types.ts:58-84 | printing a parsed amount is a normal form of the same amount, and changes the text exactly when it was not in normal form |
| Money.AmountsExactly | backend/src/execution/execution.types.ts:58-75 | a text is parsed exactly when, blanks around it aside, it is a sign, digits and at most two decimals within the safe integers, and to the amount it spells, missing decimals being zeros |
| Money.WinningProfitIsNearest | backend/src/execution/execution.types.ts:87-91 | the profit is the whole cent nearest to stake times odd minus one, halves up, never negative for odds of one or more |
| Quotes.SelectsFreshest | backend/src/odds/executable-quote.service.ts:50-113 | the answer is a candidate about the target, open, above par, received by then and not too old, and none such was observed later, received later at the same instant, or comes earlier by name; there is no answer exactly when there is no such candidate |
| Quotes.OrderDoesNotMatter | backend/src/odds/executable-quote.service.ts:90-113 | with distinct snapshot identifiers the answer does not depend on the order of the candidates |
| Quotes.PrefilterIsExact | backend/src/odds/executable-quote.service.ts:18-48 | searching the loaded window gives the same quote as searching the whole table, for every query the window covers |
| Sorting.SortIsStable | backend/src/backtest/kpis-calculator.ts:30-32 | elements that tie keep the order they came in |
| Simulation.PlanNewDecisions | backend/src/simulation/simulation.service.ts:231-372 | the planning loop leaves the rows and bankroll of its specification |
| Simulation.BankrollFromJournal | backend/src/simulation/simulation.service.ts:170-191 | the loop computes initial plus realized minus open over the journal |
| PlannerProofs.PlanMatchesJournal | backend/src/simulation/simulation.service.ts:347-372 | the bankroll a plan leaves is the one its journal implies, never overdrawn nor over the exposure limit if it was not |
| PlannerProofs.ReplanAddsNothing | backend/src/simulation/simulation.service.ts:231-372 | planning again on the resulting journal adds no row and moves no money |
| PlannerProofs.SignalOrderDoesNotMatter | backend/src/simulation/simulation.service.ts:254-265 | with distinct keys the plan does not depend on the order of the signals |
| SimulationRun.TickKeepsInv | backend/src/simulation/simulation.service.ts:771-926 | a tick that plans from history read before executions and settlements keeps the journal's invariant, and its ignoring insert drops nothing |
| SimulationRun.EveryJournal | backend/src/simulation/simulation.service.ts:771-926 | after any ticks: available not negative, exposure within its limit, at most one active row per signal, keys distinct, staked rows numbered 0, 1, …, orders decided and executed at their minimum odd or better, completed ones with the profit of their outcome |
| SimulationRun.TickSeesWholeTable | backend/src/simulation/simulation.service.ts:821-845 | a tick does what it would do if every stored quote were searched |
| SimulationRun.VirtualRun.RunTick | backend/src/simulation/simulation.service.ts:847-905 | the execution loop, the settlement loop and the planning of a tick leave the specified journal |
| SimulationRun.AdvanceImproves | backend/src/simulation/simulation.service.ts:378-479 | executing and settling a row never lowers what is available nor raises exposure, and never revives a row |
| TickOutcomes.TickAdvancesExactly | backend/src/simulation/simulation.service.ts:378-479 | each row a tick finds: a due order executes at the freshest quote of its provider and bookmaker at its due time, or is rejected without one or below the minimum; an executed one is completed exactly when its match resolves or a day has passed, with that outcome and its profit; no other row changes |
| TickOutcomes.NewRowsAreDecided | backend/src/simulation/simulation.service.ts:231-372 | each new row is about a wanted signal with no active row and says what was decided at the bankroll the rows before it leave: the refusal for its first cause, or an order at the freshest quote, of the least of what is asked, available, allowed per bet and left of the exposure, due after the latency |
| TickOutcomes.NewRowsAreInOrder | backend/src/simulation/simulation.service.ts:254-272 | signals are taken in the order of their keys |
| TickOutcomes.WantedSignalsAreAnswered | backend/src/simulation/simulation.service.ts:270-372 | each wanted signal is active, gets an order, or has a refusal on record that still stands |
| TickOutcomes.OrdersMoveTheBankroll | backend/src/simulation/simulation.service.ts:170-191 | an order takes its stake out of what is available until it is rejected or completed, with its profit |
| Replay.Run | backend/src/backtest/backtest-engine.service.ts:206-468 | grouping, tick loop and rule loop compute the specified replay |
| ReplayProofs.BetsArePlacedSignals | backend/src/backtest/backtest-engine.service.ts:265-447 | at most one bet per fixture, team and market, and as many bets as signals that reached PLACED |
| ReplayOrigins.FollowedExactly | backend/src/backtest/backtest-engine.service.ts:355-438 | a triggered rule goes on exactly if its market, edge and confidence are wanted and it was not placed; it stops at the first of no quote, odd too low at the decision, no quote, odd too low of the same provider and bookmaker after the latency; else a bet at both odds, with its outcome |
| ReplayOrigins.BetsComeFromQuotes | backend/src/backtest/backtest-engine.service.ts:206-468 | every bet of a replay has as quoted odd that of the freshest quote for its target at the decision, and as odd that of the freshest one of the same provider and bookmaker at the decision plus latency, both at the rule's minimum or better, on a call of the rules at a tick of its fixture |
| ReplayOrigins.EveryCallGetsThere | backend/src/backtest/backtest-engine.service.ts:206-468 | conversely every call of the rules at a tick with both quotes at the minimum or better is recorded as placed |
| ReplayOrigins.AdvancedSays | backend/src/backtest/backtest-engine.service.ts:441-466 | at each tick each statistic of a team is the last one stored for it, over the match and over the first half |
| ReplayOrigins.GoalsAreCounted | backend/src/backtest/backtest-engine.service.ts:295-304 | the score is the number of goals up to the minute, that minute included |
| ReplayOrigins.RowsAreThePeriods | backend/src/backtest/backtest-engine.service.ts:206-222 | the rows replayed are those of the period, by instant, then by identifier |
| ReplayOrigins.FixturesAsTheyAppear | backend/src/backtest/backtest-engine.service.ts:244-249 | fixtures are replayed once each, in the order of their first rows |
| NoLookAhead.NoLookAhead | backend/src/backtest/backtest-engine.service.ts:189-195 | datasets that agree on statistics up to T, goals up to each tick's minute and quotes received up to T plus latency give the same bets decided by T, outcomes apart |
| NoLookAhead.SelectSeesWholeTable | backend/src/backtest/backtest-engine.service.ts:234-242 | every quote query of a replay is answered as over the whole table |
| Folds.BuildFolds | backend/src/backtest/walk-forward.service.ts:114-160 | at most 200 folds, all but the last complete, each validated inside the range and no further fold possible; each error exactly under its condition |
| Folds.TestWindowsAreDisjoint | backend/src/backtest/walk-forward.service.ts:126-160 | no instant lies in the test windows of two folds |
| Folds.WindowsAreAdjacent | backend/src/backtest/walk-forward.service.ts:131-158 | training, validation and test follow each other for their days without gap, each fold a step after the one before |
| Folds.Summarise | backend/src/backtest/walk-forward.service.ts:338-397 | the fold loop counts rejected folds by reason, adds up to the number of folds, and chains the eligible test windows |
| Folds.ReasonExactly | backend/src/backtest/walk-forward.service.ts:552-565 | a fold is left out for the first of incomplete window, no signal, too little coverage, and counts exactly when for none |
| Folds.NothingCountsTwice | backend/src/backtest/walk-forward.service.ts:338-371 | chained are exactly the bets and signals that fall in a test window of a fold that counts, each as often as in the replay: none twice, none left out |
| Folds.CountsAddUp | backend/src/backtest/kpis-calculator.ts:150-169 | the summary's count of each stage is the sum over eligible folds |
| Folds.CoverageBounds | backend/src/backtest/kpis-calculator.ts:155-168 | coverage lies between 0 and 100 percent, with both ends reached by full and by no coverage |
| Folds.SummarizeCounts | backend/src/backtest/kpis-calculator.ts:150-169 | each count is of the signals at its stage; coverage is the share that was placed or refused for its odd, to the nearest hundredth of a percent |
| Kpis.ApplyStaking | backend/src/backtest/kpis-calculator.ts:26-102 | the staking loop computes the specified books over bets in decision order |
| Kpis.NeverOverdrawn | backend/src/backtest/kpis-calculator.ts:34-73 | with odds of one or more the bankroll is never negative, is the non-negative start plus net profit, and drawdown lies between 0 and 100 |
| Kpis.SettledInOrder | backend/src/backtest/kpis-calculator.ts:30-73 | bets are settled one by one by decision, ties in the order given; each stakes what is asked up to what is left, wins its odd less one or loses its stake, and moves bankroll, net and turnover by that |
| Kpis.DrawdownIsWorstFall | backend/src/backtest/kpis-calculator.ts:34-73 | the peak is the most ever left, and the maximum drawdown the largest share of any bankroll lost later on, which did happen |
| Kpis.ReplayNeverOverdraws | backend/src/backtest/kpis-calculator.ts:26-73 | staking the bets of any replay never overdraws the bankroll, with no condition on the data |
| Kpis.MarketsAddUp | backend/src/backtest/kpis-calculator.ts:75-109 | per-market stakes, profits and counts sum to the totals, and won, lost, void and without result partition the placed bets |
| Kpis.MarketsAreOfTheirBets | backend/src/backtest/kpis-calculator.ts:75-90 | the totals of a market are those of its own placed bets, and it is listed exactly when it has some |

## Left out

- SQL, wiring, controllers, validation of requests, logging and audit rows: a transaction is one atomic step and a unique index a condition on the tables.
- Stop reasons, status reasons and other texts: the reason of an order set aside is passed beside it, since it is only shown and searched for two words.
- Automatic stops in the protocol: they are separate steps allowed at any moment, which covers the moment the source takes them; `ReconciliationRun` takes them where the source does.
- Operator adapters, receipt redaction, the rules evaluator, market names and match outcomes: arbitrary answers or uninterpreted functions.
- Digests: order keys, signal keys and row keys are the tuples they hash; signal keys are numbers because only their order matters.
- Drift between the application's and the database's clock: one clock; the tolerance test is a parameter.
- Real time limits on operator calls: a timeout is an UNKNOWN answer while the operator may have placed the order.
- Width of the money columns: a balance over decimal(14,2) is an OutOfRange refusal; the spelling of equal amounts ("5" and "5.00") is not modelled outside `Money`.
- Execution in LIVE_CANARY: no adapter exists for it, so no order ever carries that mode.
- `reserveStake` and `releaseStake`: no caller of theirs is part of this model.
- `executeDecision`: a reservation followed by a submission, both modelled.
- Listing and paging of orders, runs and decisions, summaries for the console.
- `resolveUnknown` on a copy read earlier: the model reads the order at its transaction; since an UNKNOWN order never becomes UNKNOWN again, a stale copy writes nothing more.
- Selection of reconciled orders by creation date and of abandoned reservations by update date: any orders of the account and any reservations.
- `statusReason` texts and evidence snapshots of reconciliation items.
- Slippage, return on investment, hit rates, confidence intervals, rounding to two decimals and binary floating point in quote odds, stakes in percent and coverage.
- The dataset and result hashes of a replay and the sorted list of its signals.
- Leases, locks and status rows of simulation and walk-forward runs; train and validation metrics.
- OrderService.OrderExecutionService.ResolveUnknown: does not settle after a SETTLED or VOIDED answer nor stop execution itself, because the settlement is a pair of further transactions; `ReconciliationRun.ReconciliationService.ResolveOne` does both as the source does.
- SubmitCall.Submission.Submit: does not take the automatic stops of the call, which are steps of their own in the protocol, allowed at any moment.
- Folds.Summarise: does not compute the metrics of train and validation windows nor the totals of the chained bets, which are `Kpis.ApplyStaking` on those bets.
- Kpis.ApplyStaking: does not compute rates, slippage or confidence intervals, which are roundings and divisions of the totals it does compute.

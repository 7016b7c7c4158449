# Restricted-live trading: a verified model

`runtime2` is a candle-driven trading runtime. In its restricted-live mode it polls private exchange events, works out
which orders are known, missing or unknown, recovers the uncertain ones by REST lookup, remembers across restarts what
is still unresolved, and changes the portfolio only if everything agrees. This project models that path in Dafny and
proves what it keeps: over one call, over one cycle, and over whole runs.

`dafny verify dfyconfig.toml` checks the whole project.

## How the model is built

Every operation that the program performs step by step is a method (a class with mutable fields where the program has an
object with mutable fields), proved equal to a function of its inputs or of the old state; the theorems are about those
functions. The lookup transport, the authenticated stream transport, the socket and the clock are oracles: functions or
scripts about which nothing is assumed, except where a statement says so (`LookupAloneConfirms` also shows that the
condition of the gate theorems, `PassedMutation`, can be met). Amounts are exact reals, times are integer microseconds.
An exception is `None`, `Err` or a flag that marks the run as failed.

| file | what it holds |
|---|---|
| `Contracts.dfy`, `Collections.dfy`, `Runs.dfy` | canonical records, shared vocabulary, generic facts about runs of a step function |
| `PaperLedger.dfy`, `Valuation.dfy`, `PostingOrder.dfy`, `PositionTracing.dfy`, `OrderLifecycle.dfy`, `PaperSimulation.dfy` | posting fills, the prices they are valued at, what their order decides, position tracing and baselines, order lifecycle, paper execution |
| `LiveTranslation.dfy`, `TranslationSafety.dfy`, `TranslationOutcome.dfy`, `OneFillOrders.dfy`, `DeliveryOrder.dfy`, `DeliveryOutcome.dfy` | the guarded fill translation, its guarantees and its exact outcome |
| `Recovery.dfy`, `RecoveryBounds.dfy`, `LookupAnswers.dfy`, `OrderLookup.dfy` | classification, plan, bounded lookup loop, what it asks and what answers achieve, recovered orders and fills |
| `Coordinator.dfy`, `ReconciliationStore.dfy`, `ReplaySafety.dfy`, `Reconciliation.dfy`, `OrderTracking.dfy`, `Escalation.dfy` | the reconciliation workflow, the restart store, one cycle as a step, runs of cycles, manual attention |
| `OrderMerge.dfy`, `LivePortfolioGate.dfy`, `GateSafety.dfy`, `GateDecision.dfy`, `OpenOrders.dfy`, `LookupConfirmation.dfy` | the mutation gate, exactly when it passes, and what a passed or blocked mutation means |
| `RestrictedLiveRuns.dfy`, `SoakRun.dfy`, `SoakSafety.dfy`, `ExchangeHealth.dfy` | whole live runs, the soak loop, exchange health |
| `PrivateStreamSession.dfy`, `PollOutcome.dfy`, `RequestWeight.dfy` | the private-stream watchdog and what each poll does, the request-weight budget |
| `WebSocketFrames.dfy`, `WireFormat.dfy`, `WebSocketConnection.dfy` | the frame codec of RFC 6455 sections 5.2, 5.3, 5.5.2 and 5.5.3, byte by byte |

## Where the code and its promises differ

The model follows the code. These statements one might expect are false of it; each has a lemma that shows the failure
and, where the program's own guard allows it, the exact condition under which the expected statement holds.

- After a stream invalidation the gate announces that it waits for canonical private confirmation
  (`app/exchanges/binance/live_portfolio_gate.py:210-211`), but fills recovered by REST lookup count as confirmation.
  `LookupAloneConfirms` passes a mutation on a lookup alone; `PrivatelyConfirmedExactly` says when the announced
  confirmation is there.
- A matched expected order that is still open loses its privately reported fill: the all-zero entry of the coordinator
  looks richer to the merge because its remaining quantity is smaller. `MatchedEntryKeepsFill` gives the exact condition,
  `OpenExpectedOrderBlocks` the consequence: any new fill of such an order blocks the cycle.
- The heartbeat rate limit holds for completed reconnects only. Of two polls within the gap, the second attempts a
  reconnect again exactly if the first attempt raised (`RaisedReconnectRepeats`); over a transport that goes down, two
  attempts follow each other after a microsecond (`RaiseTwice`). If no attempt raises, all attempts are spaced
  (`RunPolls`).
- The wording of a lookup alert and its HTTP status never matter to the fallback decision (`FallBackUnlessTerminal`).
- A client id that equals its own exchange id falls back in every round (`SelfFallBackRepeats`); that is the only way for
  a client id to fall back twice (`FallBackOnceExactly`).
- Fingerprints are joined with a bare separator, so ids that contain it can collide (`SeparatorCollides`);
  `FingerprintsDistinguish` is the exact statement as long as at most the alert text contains it.
- The order in which fills arrive can decide between a result and an exception, even from an empty account: one unit
  bought and then sold is posted, but delivered the other way round the sale makes the position short and the purchase
  then divides by zero (`UncoveredOrderMatters`). `DividesExactly` says when a batch divides, `PostsInEveryOrderExactly`
  when some posting order of it does, and `DividesInSomeOrder` when some delivery order of a pass does: exactly when
  some of its orders and the beginning of a further one take a position to zero with a buy. Whether a pass raises is
  independent of the delivery order when holdings cover the sales (`CoveredDelivery`), and everything but the time of
  the portfolio is when no two orders trade one instrument (`OneOrderPerInstrumentOutcome`).
- An update that overdraws the cash raises even if the following one would have closed the overdraft; with covered sales
  `OverdraftRaises` says exactly when splitting a batch raises in this way.
- The soak runner counts the gate result on record even in cycles that never reach the gate, so a blocked mutation may be
  counted more than once; `BlockedCountExact` says exactly when the count is the true one. It also remembers ids that a
  blocked pass ignored, and what is remembered without having been posted is never posted (`RememberedStaysUnposted`).
- A cycle in which recovery completed is still reported as degraded (`CompletedRecoveryIsDegraded`); `HealthyCycle` and
  `FatalCycle` say exactly when a cycle is reported healthy and fatal.
- A portfolio baseline can disagree with the very account snapshot it was built from (`RepeatedBalanceDisagrees`);
  `BaselineAgrees` gives the exact condition for every snapshot.
- A socket time-out inside a frame drops the bytes already read, while the caller treats a time-out as harmless. It is
  harmless exactly if it strikes the first call of the read (`ReadFrame`); anywhere else the bytes before it are lost
  (`LoseFrameStart`) and the next read starts inside the old frame (`ReadInsideFrame`).

## Model

| member | source | states |
|---|---|---|
| PaperLedger.ApplyFills | app/portfolio/paper.py:20-80 | the fill and valuation loops compute the fold `Applied`, or raise exactly where it does |
| PaperLedger.MarkToMarket | app/portfolio/paper.py:55-69 | gross, net and open profit are sums over all instruments, whatever order the dictionary yields them in |
| PaperLedger.AccountingIdentity | app/portfolio/paper.py:28-80 | for every batch: cash plus net exposure less realized and open profit changes by the buy fees only |
| PaperLedger.OtherCashUntouched | app/portfolio/paper.py:28-53 | no balance other than the quote asset's ever changes |
| PaperLedger.BatchesCompose | app/portfolio/paper.py:34-55 | when the first update succeeds, the second one fails exactly when one update with the joined batch does, and both leave the same books |
| PaperLedger.OverdraftRaises | app/portfolio/paper.py:34-80 | with covered sales, an update raises although the joined batch succeeds exactly if it overdraws the cash and the second batch closes the overdraft |
| PaperLedger.PermutedPostings | app/portfolio/paper.py:34-55 | reordering a batch changes no balance and no position |
| PaperLedger.PostedOutcome | app/portfolio/paper.py:34-80 | an update that divides nowhere raises exactly if it overdraws the quote cash or leaves a negative average price |
| PaperLedger.CoveredOutcome | app/portfolio/paper.py:34-80 | a batch whose sales are covered by holdings can fail on cash alone, and exactly if the final cash is negative |
| Valuation.UpdateIsValuedAt | app/portfolio/paper.py:42-80 | net and gross exposure, open profit and date of an update: every position at the price of the last fill of its instrument in the batch, at its average if there is none |
| Valuation.AverageIsDecidedByLastFill | app/portfolio/paper.py:44-53 | the last fill of an instrument averages its cost in or keeps the average until nothing is held; other instruments keep theirs |
| PostingOrder.DividesExactly | app/portfolio/paper.py:38-49 | a batch divides by zero exactly when one of its buys takes a position to zero after the fills before it |
| PostingOrder.PostsInEveryOrderExactly | app/portfolio/paper.py:34-53 | every posting order of a batch avoids the division exactly when no part of the batch and a further buy of it take a position to zero |
| PostingOrder.InterleavingIrrelevant | app/portfolio/paper.py:34-53 | batches with the same sequence of fills per instrument leave the same book or divide by zero alike, however instruments are interleaved |
| PositionTracing.DerivePositions | app/portfolio/paper.py:82-109 | one position per instrument in sorted order; it raises exactly when some position is not long |
| PositionTracing.LongExactly | app/portfolio/paper.py:82-109 | a position can be traced exactly if quantity, average and mark price are not negative |
| PositionTracing.PositionExactly | app/portfolio/paper.py:89-108 | the fields of a traced position |
| PositionTracing.PositionsAddUp | app/portfolio/paper.py:57-109 | traced at the last fill prices, positions sum to the portfolio's net exposure and open profit |
| PositionTracing.BuildBaseline | app/portfolio/live.py:29-76 | the baseline loop builds the book that later statements are about |
| PositionTracing.BaselineExactly | app/portfolio/live.py:38-76 | a baseline holds the base asset as its only position at no cost, and as cash the quote and whatever was positive |
| PositionTracing.BaselineAgrees | app/portfolio/live.py:29-76 | for every snapshot, the baseline passes the comparison with that snapshot exactly when every asset is stated and its last stated amount is the one the baseline took over, case by case |
| PositionTracing.RepeatedBalanceDisagrees | app/portfolio/live.py:29-76 | a snapshot that states first a positive and then a zero amount of an asset disagrees with its own baseline |
| PositionTracing.OrdinaryBaselineAgrees | app/portfolio/live.py:29-76 | with one balance per asset and an instrument named after its base asset, that is when every balance states an amount |
| OrderLifecycle.StepwiseFilling | app/execution/order_lifecycle.py:76-105 | filling step by step succeeds exactly up to the request, and quantity, notional and status are those of the batch |
| OrderLifecycle.StepwiseAverageIsBatchAverage | app/execution/order_lifecycle.py:224-233 | the incremental average equals the live translator's batch average |
| OrderLifecycle.AverageWithinPrices | app/portfolio/live.py:214-225 | the batch average lies between the lowest and highest fill price |
| OrderLifecycle.LedgerAverageIsBatchAverage | app/portfolio/paper.py:44-49 | bought from flat, the ledger's average entry price is the same average |
| PaperSimulation.Simulate | app/execution/paper.py:30-69 | every simulated order is filled in full by its one fill, at the simulated price, in intent order |
| PaperSimulation.PaperFillExactly | app/execution/paper.py:30-69 | the simulated fill has the intent's ids, side and quantity, the given price and time, and its fee in basis points |
| PaperSimulation.SimulatedPassApplies | app/execution/paper.py:30-69 | translating the simulator's output for distinct intents raises only if the ledger does, and otherwise posts every fill in intent order with nothing ignored or pending |
| OrderLookup.RecoveredFillKeepsValue | app/exchanges/binance/order_client.py:288-360 | a recovered fill has the executed quantity and costs exactly the cumulative quote quantity of the answer |
| OrderLookup.RecoveredOrderExactly | app/exchanges/binance/order_client.py:269-311 | an order is rebuilt from an answer exactly if no number in it is negative and no more executed than ordered, under the exchange id where there is one |
| OrderLookup.RecoveredFillExactly | app/exchanges/binance/order_client.py:313-349 | a fill is rebuilt exactly from a FILLED order that was executed for a positive quote value |
| OrderLookup.FeeInQuoteAsset | app/exchanges/binance/order_client.py:328-331 | the fee asset is what follows the last dash of the instrument |
| OrderLookup.RecoveredFillSettles | app/exchanges/binance/order_client.py:328-360 | the recovered fill's id names its order, and alone it settles the recovered order with nothing pending |
| LiveTranslation.RecoveredIdNamesItsOrder | app/portfolio/live.py:19-26 | the order id is read back from a recovered fill id for every colon-free order id |
| LiveTranslation.Deduplicate | app/portfolio/live.py:163-175 | the scan keeps the first delivery of every new id and tells faithful from contradictory redeliveries |
| LiveTranslation.JudgeGroups | app/portfolio/live.py:182-246 | the per-order loop adds up the verdict on every order, in order of first delivery |
| LiveTranslation.ScanOrders | app/portfolio/live.py:248-254 | waiting partially filled orders, and filled orders without fills |
| LiveTranslation.MismatchedAssets | app/portfolio/live.py:273-282 | exactly the snapshot assets whose projected balance differs or is not stated |
| LiveTranslation.Translate | app/portfolio/live.py:137-316 | all scanning loops together return or raise what `Translated` says |
| TranslationSafety.AllOrNothing | app/portfolio/live.py:256-316 | a pass either asks for review and returns the input portfolio, or posts exactly its applied fills |
| TranslationSafety.AppliedOnce | app/portfolio/live.py:163-175 | applied ids are distinct, delivered, and were not applied before |
| TranslationSafety.NothingDropped | app/portfolio/live.py:163-254 | in a successful pass the delivered ids are exactly the applied and the ignored ids |
| TranslationSafety.NeverOverfilled | app/portfolio/live.py:214-246 | no order is posted more than it reports filled; a FILLED order that is posted to is posted exactly that |
| TranslationSafety.RecoveredNotDoubleCounted | app/portfolio/live.py:156-205 | after a recovered fill, late private fills of the FILLED order are never posted |
| TranslationOutcome.ReviewedExactly | app/portfolio/live.py:268-316 | an unambiguous pass that posts asks for review exactly when some updated asset is unstated in the account snapshot or stated with another amount than the book then holds |
| TranslationOutcome.AmbiguousExactly | app/portfolio/live.py:163-255 | a pass is ambiguous exactly when a new id comes with two contents, new fills belong to an unknown, recovering or otherwise reported order, or a FILLED order has no new fills |
| TranslationOutcome.AppliedExactly | app/portfolio/live.py:187-246 | an unambiguous pass posts a fill exactly if it is new and neither late after a recovered fill nor a recovered one that private fills replace |
| TranslationOutcome.PendingExactly | app/portfolio/live.py:236-254 | an order is pending exactly if its new fills leave it open or it waits partially filled without any |
| TranslationOutcome.IgnoredExactly | app/portfolio/live.py:163-212 | an id is ignored exactly if it was applied before, is delivered again, or its fill does not count |
| TranslationOutcome.AggregationsSumUp | app/portfolio/live.py:214-225 | a reported aggregation has the total and the average price of the fills that count for its order |
| TranslationOutcome.PostedOrdersAreAggregated | app/portfolio/live.py:214-246 | every order of which a fill is posted is reported with an aggregation |
| TranslationOutcome.PostedOutcomeOfPass | app/portfolio/live.py:137-316 | status, applied ids and pending ids of a pass without review, and each order's fills in time order |
| TranslationOutcome.RaisesExactly | app/portfolio/live.py:256-271 | a pass raises exactly if it is unambiguous and the ledger refuses what counts |
| DeliveryOrder.ConflictMeansContradiction | app/portfolio/live.py:163-175 | a conflict is flagged exactly when some new id was delivered with two contents, wherever they stand |
| DeliveryOrder.AssessPermuted | app/portfolio/live.py:163-254 | permuted deliveries are ambiguous alike; when they are not, they apply the same multiset of fills and leave the same orders pending and the same ids ignored |
| DeliveryOrder.PostedSequence | app/portfolio/live.py:246-246 | one order's fills are posted in the same chronological sequence for every delivery order |
| DeliveryOrder.RedeliveredExactly | app/portfolio/live.py:163-175 | without contradictions an id counts as redelivered exactly if it was applied before or is delivered at least twice |
| DeliveryOrder.DeliveryOrderIrrelevant | app/portfolio/live.py:163-316 | permuting deliveries changes neither status, applied ids, cash nor positions, with duplicates, conflicts and snapshot check |
| DeliveryOutcome.OneOrderPerInstrumentOutcome | app/portfolio/live.py:163-316 | when no two orders trade one instrument, permuted deliveries raise the same exception or leave the same status and, apart from its time, the same portfolio |
| DeliveryOutcome.DividesInSomeOrder | app/portfolio/live.py:246-271 | some delivery order of a pass divides by zero exactly when the pass is unambiguous and some of its orders, followed by the beginning of a further order, take a position to zero with a buy |
| DeliveryOutcome.CoveredDelivery | app/portfolio/live.py:268-271 | with covered sales even the exception does not depend on delivery order |
| DeliveryOutcome.UncoveredOrderMatters | app/portfolio/live.py:268-271 | from an empty account two FILLED orders' fills are posted in one arrival order and divide by zero in the other |
| Recovery.SeenSplit | app/exchanges/binance/reconciliation.py:173-174 | expected orders are split by whether a private event carries their id |
| Recovery.UnknownSplit | app/exchanges/binance/reconciliation.py:145-172 | unknown ids are exactly the seen ids that were not expected; there are none exactly if there are no client and no exchange-only ids |
| Recovery.ClassifiedExactly | app/exchanges/binance/reconciliation.py:137-204 | matched, missing and unknown ids by whether they are expected and whether an event reports them |
| Recovery.UnknownCovered | app/exchanges/binance/reconciliation.py:145-172 | the client ids and the exchange-only ids are those of the unknown events: an event's client id, or its sequence id when it has none |
| Recovery.PlanAsksExactly | app/exchanges/binance/reconciliation.py:237-287 | the planned lookups are exactly the missing expected ids, the client ids of unknown events, and the sequence ids of unknown events without one |
| Recovery.PlanIsRanked | app/exchanges/binance/reconciliation.py:237-255 | missing orders are looked up first, then client ids, then the other unknown events |
| Recovery.TriggerExactly | app/exchanges/binance/reconciliation.py:257-270 | the trigger is the first that applies of gap, restart, unknown execution and missing update |
| Recovery.BuildPlan | app/exchanges/binance/reconciliation.py:237-287 | the plan loops ask once for every wanted lookup, in order |
| Recovery.AutomaticWhenNeeded | app/exchanges/binance/reconciliation.py:237-287 | recovery is automatic exactly when some order is missing or unknown |
| Recovery.BuildFallbacks | app/exchanges/binance/reconciliation.py:91-111 | exactly the unknown client ids for which an event offers an exchange id are mapped, each to the one of the first such event |
| Recovery.FallbacksExactly | app/exchanges/binance/reconciliation.py:99-111 | the same about the map that the lookup loop uses |
| Recovery.FallBackUnlessTerminal | app/exchanges/binance/reconciliation.py:113-135 | the fallback branch is taken exactly on non-terminal answers, whatever the alert and HTTP status |
| Recovery.RunRecovery | app/exchanges/binance/reconciliation.py:356-418 | the nested lookup loops compute `Recovered` for every transport |
| RecoveryBounds.LoopBound | app/exchanges/binance/reconciliation.py:356-418 | one recorded lookup per request and round, at most three rounds, all of them unless the loop settles |
| RecoveryBounds.LoopAgreement | app/exchanges/binance/reconciliation.py:363-418 | one transport call per record plus one per fallback; leaving early means every value has a terminal answer |
| RecoveryBounds.EveryCallIsObserved | app/exchanges/binance/reconciliation.py:363-400 | with a transport that reports its health, there is one health record per call |
| LookupAnswers.OnlyPlannedAnswersMatter | app/exchanges/binance/reconciliation.py:363-400 | two transports that agree on the planned lookups and on the exchange ids of planned client ids yield the same outcome |
| LookupAnswers.AnsweredPlanSettles | app/exchanges/binance/reconciliation.py:356-418 | if every planned lookup is answered terminally, the loop settles after one round and records exactly these answers in plan order |
| LookupAnswers.ResolvablePlanSettles | app/exchanges/binance/reconciliation.py:356-418 | it settles after one round as well if client ids are answered by their exchange ids only |
| LookupAnswers.SwitchedIdsAreAskedByExchangeId | app/exchanges/binance/reconciliation.py:364-400 | in every round, what is recorded for a client id that is never answered itself is an answer to its exchange id |
| RecoveryBounds.FallBackOnce | app/exchanges/binance/reconciliation.py:363-407 | a client id that is not its own exchange id falls back at most once, whatever the other ids do |
| RecoveryBounds.SelfFallBackRepeats | app/exchanges/binance/reconciliation.py:368-400 | in any automatic plan, a planned client id that is its own exchange id falls back in every round while no answer is terminal |
| RecoveryBounds.FallBackOnceExactly | app/exchanges/binance/reconciliation.py:363-407 | every transport makes a client id fall back at most once if and only if it is not planned with itself as exchange id |
| Coordinator.Coordinate | app/exchanges/binance/reconciliation_coordinator.py:51-261 | the loops build one entry per classified order and one per looked-up value, events and summaries alike |
| Escalation.ManualAttentionExactly | app/exchanges/binance/reconciliation_coordinator.py:179-258 | a cycle ends in manual attention exactly when some value was looked up at least three times, never with a terminal answer, and the last time not found |
| Escalation.NothingFoundIsEscalated | app/exchanges/binance/reconciliation_coordinator.py:179-258 | with something missing or unknown and a transport that finds nothing, the cycle ends in manual attention and is reported fatal |
| Escalation.ResolvableCycleConverges | app/exchanges/binance/reconciliation.py:302-467 | if every needed lookup is answered terminally, by itself or by the exchange id an event offers, the cycle converges in one round |
| Escalation.TerminalAnswerDecides | app/exchanges/binance/reconciliation_coordinator.py:147-234 | the last terminal answer at a value enters the workflow with the status it states and the recovered order's quantities |
| Escalation.UnansweredEntry | app/exchanges/binance/reconciliation_coordinator.py:122-234 | a value without a terminal answer leaves an empty entry: unreconciled if it was given up, else recovering |
| Escalation.StubsExactly | app/exchanges/binance/reconciliation_coordinator.py:65-117 | matched, unknown and missing orders enter as empty entries in these states |
| Escalation.EventsExactly | app/exchanges/binance/reconciliation_coordinator.py:82-244 | the events name unknown and missing orders, and for every value looked up how its lookups ended |
| ReconciliationStore.StateStore.Resume | app/storage/reconciliation_state.py:134-139 | the expected and the unresolved ids, each once and no others, in the order of their first occurrence, expected ones first; the store is unchanged |
| ReconciliationStore.StateStore.RegisterLookupResults | app/storage/reconciliation_state.py:146-225 | stored attempts and returned numbers are those of `Registered` |
| ReconciliationStore.StateStore.PersistWorkflowState | app/storage/reconciliation_state.py:227-277 | the stored snapshot is `Persisted` of the old one |
| ReplaySafety.RegistrationKeepsNumbering | app/storage/reconciliation_state.py:146-225 | fingerprints stay unique and attempts of each field and value stay numbered 1, 2, 3, ... |
| ReplaySafety.ReplayAddsNothing | app/storage/reconciliation_state.py:160-225 | registering the same lookups under the same cursor again adds nothing and returns the same numbers |
| ReplaySafety.JoinInjective | app/storage/reconciliation_state.py:286-302 | the join is injective on separator-free parts |
| ReplaySafety.FingerprintsDistinguish | app/storage/reconciliation_state.py:286-302 | unless an id, source, status or cursor contains the separator, two lookups share a fingerprint exactly when they agree on every part, absent counting as empty; the alert text may be anything |
| ReplaySafety.SeparatorCollides | app/storage/reconciliation_state.py:286-302 | with the separator inside an id, failed lookups of different orders by the signed REST client share a fingerprint |
| Reconciliation.ReconcileWithTransports | app/exchanges/binance/reconciliation.py:302-467 | the whole cycle over the store computes `Reconciled` and stores its snapshot |
| OrderTracking.LastEntry | app/exchanges/binance/reconciliation_coordinator.py:65-234 | the last workflow entry of an order is pending, matched, or backed by a found terminal answer that carries its id |
| OrderTracking.UnresolvedExactly | app/storage/reconciliation_state.py:237-265 | after a cycle an id is on record exactly when its last workflow entry is pending |
| OrderTracking.NoOrderForgotten | app/storage/reconciliation_state.py:134-277 | an unresolved, missing or unknown order stays on record unless this cycle matched or terminally answered it |
| OrderTracking.TrackedUntilSettled | app/storage/reconciliation_state.py:134-277 | over any run and restart, it stays on record until a later cycle settles it |
| OrderTracking.StoreOverRuns | app/storage/reconciliation_state.py:227-277 | over every run from the empty snapshot: manual ids are unresolved ids, both sorted and duplicate-free, attempts numbered |
| OrderTracking.GapOverRuns | app/exchanges/binance/reconciliation.py:344-346 | over every run the gap flag is up exactly when some cycle so far had a gap |
| OrderTracking.CycleRecords | app/storage/reconciliation_state.py:227-277 | a cycle records its convergence and trigger, a cursor unless it is empty, and its time if it needs an operator |
| OrderTracking.CycleTrigger | app/exchanges/binance/reconciliation.py:344-354 | a gap now or on record triggers first, then orders unresolved from before, then what the events show |
| OrderTracking.ConvergenceOfCycle | app/exchanges/binance/reconciliation.py:356-457 | not required exactly when nothing is missing or unknown; settling ends in convergence; manual attention means all rounds were used |
| OrderMerge.MergeOrderStates | app/exchanges/binance/live_portfolio_gate.py:372-447 | the dictionary loops compute `Merged`, insertion order included |
| OrderMerge.OneStatePerId | app/exchanges/binance/live_portfolio_gate.py:372-447 | one valid state per id over the ids of both sides |
| OrderMerge.LastEntryDecides | app/exchanges/binance/live_portfolio_gate.py:388-447 | the last reconciled entry decides reconciliation state and status, except that SUBMIT_SENT keeps the earlier status |
| OrderMerge.UnreconciledKeepsState | app/exchanges/binance/live_portfolio_gate.py:372-447 | an id without reconciled entry keeps its last private state |
| OrderMerge.MatchedEntryKeepsFill | app/exchanges/binance/live_portfolio_gate.py:388-432 | the entry of a matched order keeps the reported fill exactly when nothing is filled or nothing remains |
| OrderMerge.MergedExactly | app/exchanges/binance/live_portfolio_gate.py:379-446 | field by field what a merge keeps and takes over; the three quantities stay together |
| OrderMerge.RecoveredEntryIsTakenOver | app/exchanges/binance/live_portfolio_gate.py:379-446 | a recovered last entry brings its status, and its quantities whenever it knows more than the earlier state |
| LivePortfolioGate.ApplyWithDetails | app/exchanges/binance/live_portfolio_gate.py:79-370 | outcome, cycle details and stored snapshot of the gate, or the exception of the ledger |
| GateDecision.PassesExactly | app/exchanges/binance/live_portfolio_gate.py:88-370 | a mutation is applied if and only if something was polled, nothing is malformed, an invalidated stream mentions every expected order, no merged order is open, a submitting run has a ready clock, and the translation succeeds without review |
| GateDecision.AttemptedExactly | app/exchanges/binance/live_portfolio_gate.py:88-126 | a mutation is attempted exactly if something was polled; else state, books and events are untouched |
| GateDecision.StoppedReports | app/exchanges/binance/live_portfolio_gate.py:127-337 | a cycle stopped before translation reports the unmentioned expected orders, else the open orders |
| GateDecision.PassContents | app/exchanges/binance/live_portfolio_gate.py:338-356 | the translator is given the merged orders, private and recovered fills, and the last full account snapshot |
| GateDecision.GateKeepsCursorAndGap | app/exchanges/binance/live_portfolio_gate.py:111-121 | a gate cycle never changes the cursor or the gap flag on record |
| GateDecision.OrdinaryCyclePasses | app/exchanges/binance/live_portfolio_gate.py:88-370 | a cycle with nothing to recover passes exactly when its translation succeeds without review |
| GateSafety.PassedLeavesNothingUnresolved | app/exchanges/binance/live_portfolio_gate.py:239-289 | after a passed mutation no order at all is left unresolved on record, and by the store invariant none awaits manual attention |
| GateSafety.PassedMeansRecovered | app/exchanges/binance/live_portfolio_gate.py:88-370 | after a passed mutation every missing or unknown order was recovered by a found terminal lookup carrying its id |
| GateSafety.PassedMeansClean | app/exchanges/binance/live_portfolio_gate.py:127-330 | no malformed payload, a ready clock, and after invalidation every expected order mentioned privately or by a recovered fill |
| GateSafety.PrivatelyConfirmedExactly | app/exchanges/binance/live_portfolio_gate.py:168-238 | after invalidation every expected order was confirmed privately if and only if no terminal lookup answer reports a fill of an expected order that the private payloads do not mention |
| GateSafety.RecoveredFillsWereAnswered | app/exchanges/binance/reconciliation_coordinator.py:147-174 | the recovered fills of a cycle are exactly those that the last terminal answer at some value reports |
| GateSafety.UnpassedChangesNothing | app/exchanges/binance/live_portfolio_gate.py:88-345 | in every other outcome the portfolio is the input and no id is reported applied |
| GateSafety.PassedPostsItsPass | app/exchanges/binance/live_portfolio_gate.py:338-370 | a passed mutation posts exactly the fills its translation applied |
| LookupConfirmation.LookupAloneConfirms | app/exchanges/binance/live_portfolio_gate.py:168-196 | after invalidation a terminal lookup passes the gate although no private payload mentions the order |
| OpenOrders.OpenExpectedOrderBlocks | app/exchanges/binance/live_portfolio_gate.py:388-432 | a new fill of a matched, still open order that no lookup answers at or carries always blocks the mutation |
| RestrictedLiveRuns.RunCycles | app/monitoring/restricted_live_failure_injection.py:222-288 | the cycle loop carries portfolio and remembered ids as the step function does, and stops where the gate raises |
| RestrictedLiveRuns.LiveStepExactly | app/monitoring/restricted_live_failure_injection.py:222-288 | a passed mutation appends its fills and posts exactly them, an exception fails the run, anything else leaves the books alone; which ids are remembered |
| RestrictedLiveRuns.AtMostOnce | app/monitoring/restricted_live_failure_injection.py:276-288 | over every run no fill id is posted twice and the books are one fold over everything posted |
| RestrictedLiveRuns.RememberedWerePosted | app/monitoring/restricted_live_failure_injection.py:281-288 | the failure-injection runner remembers exactly what it posted |
| RestrictedLiveRuns.RecoveredOrderStaysClosed | app/portfolio/live.py:156-205 | over a run, an order closed by a recovered fill receives no further fill while it is reported FILLED |
| RestrictedLiveRuns.LiveStepTracks | app/exchanges/binance/live_portfolio_gate.py:111-289 | a gate cycle with an unsettled order keeps it on record and changes no portfolio |
| RestrictedLiveRuns.UnsettledOrderFreezesPortfolio | app/exchanges/binance/live_portfolio_gate.py:111-289 | over a run, an uncertain order stays on record and the portfolio does not change at all until a cycle settles the order |
| ExchangeHealth.OverallIsWorst | app/monitoring/exchange_health.py:225-232 | overall health is fatal exactly if a component is, healthy exactly if one is and the rest are healthy or unknown |
| ExchangeHealth.ComponentsExactly | app/monitoring/exchange_health.py:100-224 | when stream, clock and status query are healthy, fatal and unknown |
| ExchangeHealth.ManualAttentionIsFatal | app/monitoring/exchange_health.py:127-152 | a cycle whose convergence is manual attention is reported fatal |
| ExchangeHealth.FatalCycle | app/monitoring/exchange_health.py:127-152 | under the store invariant a cycle is reported fatal exactly when its own convergence is manual attention |
| ExchangeHealth.HealthyCycle | app/monitoring/exchange_health.py:127-174 | a cycle is healthy exactly when every expected and formerly unresolved order was seen, no other, and no gap recorded |
| ExchangeHealth.CompletedRecoveryIsDegraded | app/monitoring/exchange_health.py:127-174 | a cycle whose recovery converged is reported degraded |
| SoakRun.Soak | app/monitoring/restricted_live_soak.py:337-532 | the loop terminates, ends at the first cycle that meets a stop criterion, and reports that criterion |
| SoakRun.RunCycle | app/monitoring/restricted_live_soak.py:374-477 | one turn over the real gate is the step function; a stale gate result changes neither portfolio nor remembered ids |
| SoakSafety.NeverEndsForManualAttention | app/monitoring/restricted_live_soak.py:506-519 | with the abort on fatal health the stop reason is never manual attention |
| SoakSafety.StopsExactly | app/monitoring/restricted_live_soak.py:506-522 | the stop reason of a cycle is the first that applies of fatal health, manual attention and the limit of blocked mutations |
| SoakSafety.ManualAttentionEndsTheRun | app/monitoring/restricted_live_soak.py:506-522 | with either abort no run goes on after a gate call that ends in manual attention |
| SoakSafety.BlockedWithinLimit | app/monitoring/restricted_live_soak.py:399-522 | the count of blocked mutations never exceeds a positive limit |
| SoakSafety.DeltasAddUp | app/monitoring/restricted_live_soak.py:451-477 | recorded reconnect and refresh deltas sum to the final counters |
| SoakSafety.DeltasAreGrowth | app/monitoring/restricted_live_soak.py:451-477 | no recorded delta is zero or negative |
| SoakSafety.RecoveriesAddUp | app/monitoring/restricted_live_soak.py:406-420 | recovery attempts and successes are those of the results on record, cycle by cycle |
| SoakSafety.RecordIsLastGateCall | app/monitoring/restricted_live_soak.py:374-400 | the result on record is that of the last gate call |
| SoakSafety.SoakPostsOnce | app/monitoring/restricted_live_soak.py:387-398 | no fill id is posted twice in a soak run and its books are one fold |
| SoakSafety.RememberedStaysUnposted | app/monitoring/restricted_live_soak.py:389-398 | an id remembered without having been posted is never posted later |
| SoakSafety.BlockedCountExact | app/monitoring/restricted_live_soak.py:383-405 | the blocked count is the true one exactly when no cycle without a gate call repeated a block |
| PrivateStreamSession.PayloadSource.Poll | app/exchanges/binance/restricted_live_transport.py:61-154 | a heartbeat reconnect needs two overdue polls in a row and is attempted exactly when due; it completes or the poll raises and keeps the session, and it raises when the transport is down; completed ones stay spaced; counters never fall |
| PrivateStreamSession.RunPolls | app/exchanges/binance/restricted_live_transport.py:61-154 | over a horizon at most horizon / (timeout + 30 s) + 1 heartbeat reconnects complete, whatever the transport does; if no attempt raises, the attempts themselves are spaced |
| PrivateStreamSession.ReconnectsWithin | app/exchanges/binance/restricted_live_transport.py:82-110 | so many times more than a gap apart fit into a horizon |
| PrivateStreamSession.RaisedReconnectRepeats | app/exchanges/binance/restricted_live_transport.py:82-127 | for every transport: of two polls within the gap the second attempts again exactly if the first attempt raised; both raise over a transport that is down |
| PrivateStreamSession.RaiseTwice | app/exchanges/binance/restricted_live_transport.py:61-154 | a transport that goes down after its first message makes two polls a microsecond apart attempt a reconnect and raise |
| PollOutcome.FirstPoll | app/exchanges/binance/restricted_live_transport.py:61-67 | without a session a poll opens one and goes on with it, or raises |
| PollOutcome.ExpiredPoll | app/exchanges/binance/restricted_live_transport.py:111-112 | with an expired session a poll opens a new one and reads on it, or raises and keeps the old one |
| PollOutcome.QuietPoll | app/exchanges/binance/restricted_live_transport.py:114-154 | a session neither expired nor silent is renewed if it nears its expiry, and read; what each answer of the transport does |
| PollOutcome.SilentPoll | app/exchanges/binance/restricted_live_transport.py:75-110 | a silent session is reconnected exactly if the poll before found it silent too and the silence exceeds the timeout by more than 30 s; else the poll only counts |
| PollOutcome.HealthExactly | app/exchanges/binance/private_stream_client.py:441-481 | a stream is authoritative exactly while it streams, has not expired and is not silent |
| RequestWeight.Tracker.Consume | app/exchanges/binance/throttling.py:26-59 | a request is granted exactly when it fits into what the current window has left |
| RequestWeight.Tracker.ObserveResponseHeaders | app/exchanges/binance/throttling.py:61-97 | headers can only raise the usage of the current window |
| RequestWeight.SlidingWindow | app/exchanges/binance/throttling.py:104-107 | any interval of one window length contains at most twice the limit of granted weight |
| RequestWeight.RunCalls | app/exchanges/binance/throttling.py:26-107 | for every sequence of calls: at most the limit per tumbling window, twice the limit per sliding one |
| WebSocketFrames.BigEndianRoundTrip | app/exchanges/binance/private_transport.py:162-165 | a length survives its big-endian bytes |
| WebSocketFrames.MaskingUndoesItself | app/exchanges/binance/private_transport.py:168-183 | masking twice with one mask returns the payload |
| WebSocketFrames.FrameRoundTrip | app/exchanges/binance/private_transport.py:157-184 | reading a written frame returns opcode and payload over all three length forms, masked or not, and leaves what follows |
| WebSocketFrames.CutFrameIsIncomplete | app/exchanges/binance/private_transport.py:148-170 | no proper prefix of a frame is taken for a frame |
| WebSocketFrames.FramesRoundTrip | app/exchanges/binance/private_transport.py:157-184 | any sequence of frames is read back from its concatenation |
| WebSocketFrames.FirstTextIsHeard | app/exchanges/binance/private_transport.py:73-85 | the first text payload is returned after one pong per preceding ping, same payloads, same order |
| WireFormat.ReadExactly | app/exchanges/binance/private_transport.py:158-171 | a frame is read exactly if the stream begins with it: length form, opcode, mask and payload byte by byte |
| WireFormat.WrittenExactly | app/exchanges/binance/private_transport.py:173-186 | a written frame is final, takes the shortest length form and carries its mask |
| WireFormat.WrittenExamples | app/exchanges/binance/private_transport.py:173-186 | the text messages of RFC 6455 section 5.7 |
| WireFormat.FirstOtherFrameDecides | app/exchanges/binance/private_transport.py:73-85 | after keepalives the first other frame decides: text, close frame, unknown opcode, or end of stream |
| WebSocketFrames.DroppedHeaderShiftsFrames | app/exchanges/binance/private_transport.py:148-155 | with its header dropped, the text of a frame is itself read as a frame |
| WebSocketConnection.Connection.ReadExact | app/exchanges/binance/private_transport.py:148-155 | all the requested bytes or an error, however the socket splits them; a time-out has taken nothing exactly if it struck the first call |
| WebSocketConnection.Connection.ReadFrame | app/exchanges/binance/private_transport.py:157-171 | the first frame of the stream for every split; end of stream only when the bytes stop inside it; a time-out never gets past the frame and leaves the stream intact exactly if it strikes the first call |
| WebSocketConnection.Connection.SendFrame | app/exchanges/binance/private_transport.py:173-184 | the bytes sent are the encoding of the frame under a fresh mask |
| WebSocketConnection.Connection.RecvText | app/exchanges/binance/private_transport.py:73-85 | result, unread bytes and pongs are those of `Listen`; after a time-out between two frames, listening to the remaining bytes completes them |
| WebSocketConnection.Connection.RecvTextAgain | app/exchanges/binance/private_transport.py:280-294 | calling again after time-outs: if they all struck between frames, the result is the first text after exactly one pong per ping before it |
| WebSocketConnection.LoseFrameStart | app/exchanges/binance/private_transport.py:148-171 | for every frame and every number of bytes of it, a time-out after that many bytes loses exactly those bytes |
| WebSocketConnection.ReadInsideFrame | app/exchanges/binance/private_transport.py:148-171 | reading on after a header was lost returns the text of the old frame as a frame |
| WebSocketFrames.NoBoundaryInside | app/exchanges/binance/private_transport.py:157-171 | a position inside a frame is never the end of a whole number of frames |
| WebSocketConnection.PongsAreReadable | app/exchanges/binance/private_transport.py:78-80 | the peer reads exactly those pongs back |

## Left out

- Decimal rounding: amounts are exact reals, so Python's 28-digit context is not modelled.
- Alerts, detail texts, reasons and timestamps of reports: they are kept only where a branch reads them.
- Raw payload parsing and symbol inference: payloads arrive normalized and translated; unsupported payloads, which raise,
  are not part of the input type.
- The empty-string and time-zone checks of the record constructors: only their numeric invariants are modelled.
- JSON and the state file: the snapshot is a field of the store; a corrupt file or a failing write is not modelled.
- Running without a reconciliation state store: the gate is modelled with its store.
- `ingest_events` beyond the event list it passes on: family counts and batch health feed reports only.
- Sockets below `recv` and `sendall`, TLS, the opening handshake, and UTF-8 decoding of text payloads: `recv_text` returns
  bytes here. A payload of 2^64 bytes or more, which Python cannot hold, is excluded.
- SoakRun.Soak: without a cycle limit it is proved to end when a deadline is set that the clock reaches; a run with neither
  never ends in the program and is not covered. Sleeping is reduced to its time check, and the strategy part of a cycle to
  whether the cycle reaches the gate.
- RequestWeight.Tracker.Consume: times do not decrease; a negative weight is granted as in the program, but the bounds on
  granted weight are not claimed after it (every caller passes a non-negative constant).
- PrivateStreamSession.RunPolls: the heartbeat timeout is non-negative and poll times do not decrease.
- DeliveryOutcome.CoveredDelivery: covered sales are sufficient for the exception not to depend on delivery order, not
  necessary. The division by zero has its exact condition (`DividesInSomeOrder`) and so has the exception of a given
  posting (`PostedOutcome`); when some delivery order leaves a short position with a negative average price is not
  characterized further.
- The private-stream client: sessions are opened by the payload source only; shutdown and account sync summaries are omitted.
- Order cancellation, expiry and rejection transitions, order submission and clock synchronization: single assignments or I/O.
- Reporting, artifacts, strategies, risk, feature and snapshot services, parity and report-only runners, the legacy exchange
  package and the Upbit stubs: plumbing, or short pure functions without state or interaction.

# Risk, execution and accounting kernel: a verified model

This project models the deterministic kernel of the copy-trading system, the part
of `crates/copytrade-core` and `crates/copytrade-observer` that decides what may be
traded, models how it trades, and accounts for what was traded. It proves what that
kernel promises over every input and every run:

* **Signer events** (`Ledger`, `EpisodeLaws`, `LiveTrading`, `LiveEquity`,
  `ProductionState`, `StreamEffects`). Fills and funding reach an episode book
  through a reorder buffer. Whatever the delivery order and the duplicates, the
  state is the one that applying the accepted prefix in order gives; no cent
  appears or disappears on the way through opened, enlarged, reduced and flipped
  episodes; and the state always reloads.
* **Portfolio projection** (`PortfolioRanges`, `TargetShaping`, `RiskStaging`,
  `PortfolioRisk`, `RangeExtremes`, `ProjectionLaws`). Targets are clamped, scaled
  and rounded; the resulting actions are checked against every way in which the
  open orders may fill. For valid input, known open orders and sales that can be
  rounded, the projection succeeds whenever doing nothing is safe; its loop's own
  error is unreachable; and a success bounds every partial-fill outcome.
* **Read scheduler** (`RateBudget`, `BudgetLaws`, `ReadRequests`, `RetryLaws`,
  `DispatchOrder`, `QueueMachine`, `DispatchLaws`, `ReadScheduler`). A
  hierarchical token bucket with a reserve, a bounded queue with successors and
  permits, weighted fairness and retries, over every interleaving of calls.
* **Order lifecycle** (`Lifecycle`, `LifecycleLaws`, `LifecycleRegistry`).
  Reconciliation of orders whose submission is unknown, and a registry whose index
  stands for a scan.
* **Depth walk** (`Shadow`). A greedy walk that is the best way of taking a
  quantity from a book, and a planner whose prediction the executor meets.
* **Canonical encoding** (`Canonical`, `CanonicalReader`, `KeySort`,
  `SnapshotSet`, `SnapshotReader`). A tagged encoder, and a reader of its format,
  from which every value can be recovered, behind the identities of snapshot sets.

`Common` holds results, exact decimals, text and sums over maps.

Objects that the program updates in place are classes. Their methods are proved
against functions or relations on plain values (`Contents`, `Value`, `State`), and
the laws are lemmas about those. Two more things shape the model:

* A `Decimal` is a `real`. Overflow branches are left out; division by zero and the
  branches on signs and zeros are kept. Where a promise is made whatever products
  round to, the product is a parameter.
* A SHA-256 identity is represented by what is hashed, and `canonical_payload_hash`
  is a function parameter of which nothing is assumed.

Four claims one might expect are false of the code. For each there is an input that
shows it, and a condition that says exactly when it holds:

* The equity of an open episode leaves out what it has already realised. Two bought
  at 100 with one sold at 110 is a run on which equity is 10 short
  (`Ledger.EquityOmitsRealisedProfit`); equity alone is conserved exactly when the
  realised profit of the open episodes adds up to nothing
  (`Ledger.EquityAloneIsConservedWhen`), and with it added, always
  (`Ledger.MarkToMarketIsConserved`).
* The dispatch comparator is no order: three requests may stand in a circle
  (`ReadRequests.MixedRequestsStandInACircle`). It is one exactly while the two tiers
  are balanced (`ReadRequests.DispatchOrderIsTransitiveWhen`), so the scheduler's choice is the
  first affordable request only among requests on which it is one.
* A complete-depth limit is not capped by the reference bound:
  `Shadow.CompleteDepthExceedsReferenceBound` is a book and the plan made for it, at
  nearly twice the bound. A limit stays within the bound exactly when the book is too
  shallow for the request, or has all of it at prices that the cushion keeps within
  the bound (`Shadow.CompleteDepthIsWithinBoundWhen`).
* From positions beyond a cap, an action whose staged deltas make nothing worse may
  still be refused. Ten short, with a cap of five and a purchase of fifteen, is
  refused (`PortfolioRisk.ReversalPastZeroIsRefused`); a projection from beyond a cap
  succeeds exactly when each of its deltas trades back no more than is filled
  (`PortfolioRisk.BeyondCapsSucceedsWhen`).

## Model

| member | source | states |
|---|---|---|
| Ledger.EpisodeBook.Apply | crates/copytrade-core/src/ledger.rs:547-584 | one execution applied in place: the new book and the error are those of `Applied`, and a refused execution leaves positions, episodes and the counter as they were |
| Ledger.EpisodeBook.AddSameDirection | crates/copytrade-core/src/ledger.rs:586-622 | a fill in the position's direction averages the entry price and enlarges the episode, or opens one |
| Ledger.EpisodeBook.CloseOrFlip | crates/copytrade-core/src/ledger.rs:624-703 | an opposite fill realises profit on the closing part, finishes an emptied episode, and opens the rest the other way |
| Ledger.EpisodeBook.Close | crates/copytrade-core/src/ledger.rs:638-686 | the closing part of a fill: profit, exit notional and its share of the costs go to the episode, which is finished when nothing is left; when something is, its average entry and entry notional stay |
| Ledger.EpisodeBook.OpenNew | crates/copytrade-core/src/ledger.rs:705-741 | a new episode takes the next sequence number and its share of the costs |
| Ledger.EpisodeBook.FinishEpisode | crates/copytrade-core/src/ledger.rs:743-770 | the open episode moves to the closed ones with its net profit |
| Ledger.EpisodeBook.ApplyFunding | crates/copytrade-core/src/ledger.rs:133-148 | funding is a cost of the open episode of that asset, and an error without one |
| Ledger.EpisodeBook.ReconcileLastGross | crates/copytrade-core/src/ledger.rs:111-131 | the last closed episode, if it is of that asset, takes over the exchange's gross profit |
| Ledger.EpisodeBook.Validate | crates/copytrade-core/src/ledger.rs:478-496 | accepts exactly the books whose positions and open episodes agree both ways |
| Ledger.EpisodeBook.Equity | crates/copytrade-core/src/ledger.rs:512-543 | fails exactly when an open asset has no mark; otherwise starting equity, net profits of closed episodes, and unrealised profit less costs of open ones |
| Ledger.ApplyingConserves | crates/copytrade-core/src/ledger.rs:547-703 | through adds, partial closes and flips, an accepted execution changes what the book has booked by its signed cash flow less its costs |
| Ledger.ApplyingKeepsSound | crates/copytrade-core/src/ledger.rs:547-584 | positions and open episodes go on agreeing, none is zero, every episode balances, and the position is the one the execution claimed |
| Ledger.ApplyingKeepsIds | crates/copytrade-core/src/ledger.rs:705-741 | no two episodes, open or closed, ever share a sequence number |
| Ledger.ClosingRealisesTheSpread | crates/copytrade-core/src/ledger.rs:624-703 | an episode closes exactly when its position reaches or crosses zero, and its realised profit is then the exit notional less the entry notional, or the reverse for a short |
| Ledger.FlipSplitsCostsByQuantity | crates/copytrade-core/src/ledger.rs:635-700 | a flip charges each of fees, funding and slippage to the closed and to the new episode in proportion to the quantity each takes of the fill |
| Ledger.ClosingCosts | crates/copytrade-core/src/ledger.rs:635-686 | a closed episode has cost what it had cost before and the closing fill's costs in the proportion that the held quantity is of the fill |
| Ledger.EveryRunConserves | crates/copytrade-core/src/ledger.rs:478-584 | over every run of executions and funding from an empty book, refusals among them: soundness, distinct identifiers, a book that `validate` accepts, and booked value equal to the cash the accepted events moved |
| Ledger.MarkToMarketIsConserved | crates/copytrade-core/src/ledger.rs:512-543 | over every such run and for any marks: equity and realised profit of open episodes equal starting equity, cash flows less all costs, and positions at their marks |
| Ledger.EquityAloneIsConservedWhen | crates/copytrade-core/src/ledger.rs:512-543 | equity without that realised profit is conserved if and only if the open episodes' realised profits add up to nothing |
| Ledger.EquityOmitsRealisedProfit | crates/copytrade-core/src/ledger.rs:512-543 | a run of two fills, with nothing closed, on which equity is up by 10 where 20 were made |
| EpisodeLaws.AcceptedWhen | crates/copytrade-core/src/ledger.rs:547-584 | an execution is accepted exactly when it starts from the position held, changes it by what it fills on its side, and has a price when it fills something; a missing price has its own error; one that fills nothing changes nothing |
| EpisodeLaws.OthersStay | crates/copytrade-core/src/ledger.rs:547-584 | an execution leaves every other asset and everything closed before as it was; its own asset has an open episode exactly of the new position, unless that is zero |
| EpisodeLaws.ReducingRealisesTheSpread | crates/copytrade-core/src/ledger.rs:638-686 | reducing a position, long or short, keeps the average entry and the entry notional, and adds to the realised profit the price less the average entry, or the reverse for a short, on the filled quantity |
| EpisodeLaws.EnlargingAverages | crates/copytrade-core/src/ledger.rs:586-622 | enlarging a position realises nothing and makes the average entry the mean by quantity of what was held and what was filled |
| EpisodeLaws.OpeningStartsAnEpisode | crates/copytrade-core/src/ledger.rs:705-741 | from no position an episode is opened at the price and time of its decision, with the next number in its identifier and nothing realised |
| EpisodeLaws.ClosingRealisesWhatWasHeld | crates/copytrade-core/src/ledger.rs:624-770 | a position brought to zero or past it closes its own episode, which realises the spread on all that was held and keeps its identifier, decision and opening time |
| EpisodeLaws.FlippingStartsAnEpisode | crates/copytrade-core/src/ledger.rs:686-741 | past zero the rest opens a new episode with the next number; at zero nothing is open |
| EpisodeLaws.EveryRunBearsEachCost | crates/copytrade-core/src/ledger.rs:547-782 | fees, funding and slippage are each conserved: over every run, what all episodes have cost of one kind is what the accepted events charged of it |
| LiveTrading.LiveTradingState.New | crates/copytrade-core/src/live_trading.rs:189-214 | a positive starting equity is required and becomes all three equities |
| LiveTrading.LiveTradingState.ReconcileEquity | crates/copytrade-core/src/live_trading.rs:271-280 | a positive reading becomes the current equity and lowers or lifts the deployment equity |
| LiveTrading.LiveTradingState.Post | crates/copytrade-core/src/live_trading.rs:432-510 | a fill is posted to a copy of the ledger and to the pending exchange profit, leaving the state as it is |
| LiveTrading.LiveTradingState.ApplyExchangeFill | crates/copytrade-core/src/live_trading.rs:405-544 | a fill applied to a copy and committed as a whole: new state, answer and error are those of `FillOutcome`, and an error changes nothing |
| LiveTrading.LiveTradingState.ApplyFundingEvent | crates/copytrade-core/src/live_trading.rs:546-592 | the same for a funding event and `FundingOutcome`; a new one moves the current equity by its amount and leaves the settled equity |
| LiveTrading.CostsFollowTheFill | crates/copytrade-core/src/ledger.rs:547-782 | a fill touches only its own asset, closes at most one episode, and all of its costs end up in that asset's open episode or in the closed one |
| LiveTrading.PostingFollows | crates/copytrade-core/src/live_trading.rs:432-510 | the ledger accepts every valid fill on a consistent state, and settled equity, pending profit and held costs together move by exactly what the fill is worth |
| LiveTrading.FillKeepsAccounts | crates/copytrade-core/src/live_trading.rs:405-544 | an accepted fill keeps the state consistent and keeps the money identity |
| LiveTrading.FundingKeepsAccounts | crates/copytrade-core/src/live_trading.rs:546-592 | so does an accepted funding event |
| LiveTrading.EveryRunAccounts | crates/copytrade-core/src/live_trading.rs:367-592 | over every run of fills, funding and equity readings, with duplicates and failures: settled equity, pending profit and held costs equal starting equity and the worth of the distinct fills and funding events; deployment equity is the smaller of current and settled; `load` accepts the state |
| LiveTrading.FillIsRefusedWhen | crates/copytrade-core/src/live_trading.rs:409-422 | a fill is refused exactly when invalid, when its identity was applied with another payload, or when it closes an episode and settled equity, pending and own exchange profit, less the episode's costs and the fill's share of its own, leave nothing |
| LiveTrading.PostedSettles | crates/copytrade-core/src/live_trading.rs:432-518 | the settled equity that a fill leads to, from the position, the pending profit, the fill and the costs of the episode it closes |
| LiveTrading.SettledEquityMovesOnlyOnClose | crates/copytrade-core/src/live_trading.rs:482-518 | settled equity moves exactly when the position reaches or crosses zero, by the closed episode's net profit with the exchange's gross profit in it; current equity follows the exchange |
| LiveTrading.AcceptedFillsAreAppliedOnce | crates/copytrade-core/src/live_trading.rs:409-422 | a fill accepted anywhere in a run is answered as already applied at its end, without effect, and no identity is journalled twice |
| LiveTrading.AcceptedFundingIsAppliedOnce | crates/copytrade-core/src/live_trading.rs:550-565 | the same for funding events |
| LiveTrading.JournalHoldsOnlyAcceptedFills | crates/copytrade-core/src/live_trading.rs:533-544 | every journalled fill was accepted at some step of the run |
| LiveEquity.FundingIsRefusedWhen | crates/copytrade-core/src/live_trading.rs:546-578 | a funding event is refused exactly without an asset, for a known identifier with another payload, without an open episode, or when no equity would be left, and with which error |
| LiveEquity.FundingReachesEquity | crates/copytrade-core/src/live_trading.rs:566-592 | a new funding event moves the current equity by its amount and its episode's funding the other way, leaves settled equity, pending profit, positions and other episodes, and is journalled with the equities it leads to |
| LiveEquity.FillIsJournalled | crates/copytrade-core/src/live_trading.rs:511-544 | a new fill is journalled with the positions before and after it, its distance from the reference price times its quantity, and the equities it leads to, the current one being the exchange's |
| LiveEquity.FillOpensAnEpisode | crates/copytrade-core/src/live_trading.rs:432-480 | from no position the fill's own decision, identity, price, fee and slippage make the episode it opens |
| LiveEquity.FillClosesItsEpisode | crates/copytrade-core/src/live_trading.rs:482-510 | what a fill closes is the episode that was open for its asset, at the time of the fill |
| LiveEquity.ProfitWaitsForItsEpisode | crates/copytrade-core/src/live_trading.rs:482-510 | the exchange's profit on fills is added up under their asset until the episode closes; other assets' stays |
| LiveEquity.EquityIsTheLastFigureAndFunding | crates/copytrade-core/src/live_trading.rs:271-592 | over every run, the current equity is the exchange's last figure, from a fill or a reading, and the amounts of the funding events accepted since |
| LiveEquity.EquityBeforeAnyFigure | crates/copytrade-core/src/live_trading.rs:271-592 | and before any figure, the starting equity and those amounts |
| LiveEquity.JournalRecordsTheRun | crates/copytrade-core/src/live_trading.rs:511-544 | every journal entry is of some step of the run: its fill, the positions around it and the equities it led to |
| ProductionState.ProductionTradingState.ApplyReconciliationEvent | crates/copytrade-observer/src/production_state.rs:140-195 | one delivery: state and answer are those of `Deliver`, also when it fails in the middle of draining the buffer |
| ProductionState.ProductionTradingState.DrainBuffer | crates/copytrade-observer/src/production_state.rs:182-194 | the drain loop ends with the state and answer of `Drain` |
| ProductionState.ProductionTradingState.HoldBack | crates/copytrade-observer/src/production_state.rs:166-180 | an early event is refused when 256 are buffered, a duplicate is checked against what is buffered, anything else is buffered |
| ProductionState.ProductionTradingState.ApplyContiguous | crates/copytrade-observer/src/production_state.rs:197-294 | an event's effect on a copy, committed as a whole together with its hash and sequence |
| ProductionState.ProductionTradingState.Perform | crates/copytrade-observer/src/production_state.rs:203-288 | what each of the thirteen payloads does to the state, and when it is refused |
| ProductionState.ProductionTradingState.PerformIntent | crates/copytrade-observer/src/production_state.rs:203-288 | the nine payloads that only move an intent, each to its own state |
| ProductionState.ProductionTradingState.ReportFill | crates/copytrade-observer/src/production_state.rs:232-244 | a new fill needs a known intent and marks its asset for replanning; a duplicate does neither |
| ProductionState.ProductionTradingState.ReportFunding | crates/copytrade-observer/src/production_state.rs:245-254 | a new funding event marks its asset for replanning |
| ProductionState.ProductionTradingState.ReportPositions | crates/copytrade-observer/src/production_state.rs:255-268 | the mismatches are exactly the assets whose local and exchange positions differ, missing ones counting as zero, and exactly these are blocked |
| ProductionState.ProductionTradingState.ReportEquity | crates/copytrade-observer/src/production_state.rs:269-277 | an equity that differs is recorded and not taken over |
| ProductionState.ProductionTradingState.RequireIntent | crates/copytrade-observer/src/production_state.rs:296-306 | only a known intent changes its state |
| ProductionState.DeliverKeepsWellFormed | crates/copytrade-observer/src/production_state.rs:140-195 | every delivery, successful or not, keeps the state well formed and never lowers the highest sequence |
| ProductionState.EveryRunIsWellFormed | crates/copytrade-observer/src/production_state.rs:120-195 | over every run, errors in mid-drain among them: applied sequences are exactly 1 to the highest, buffered ones lie beyond the first missing one, at most 256 are buffered, the money identity holds, and `load` accepts |
| ProductionState.FailureChangesNothing | crates/copytrade-observer/src/production_state.rs:140-195 | a failed delivery that did not advance the highest sequence left the whole state as it was |
| ProductionState.FailureInMidDrainDropsItsEvent | crates/copytrade-observer/src/production_state.rs:182-194 | a delivery that fails after advancing failed on the event next in sequence, which was buffered before and is no longer, or at the last sequence number |
| StreamEffects.AnswersSayWhatHappened | crates/copytrade-observer/src/production_state.rs:140-195 | an accepted delivery answers the sequence reached, which nothing buffered follows, that it was reached before, or the first one missing while the event is held back |
| StreamEffects.RefusalsSayWhy | crates/copytrade-observer/src/production_state.rs:140-180 | which of hash, sequence, identity and window refuses a delivery that is not the next event, and that it then changes no part of the core |
| StreamEffects.EventMovesItsIntent | crates/copytrade-observer/src/production_state.rs:203-306 | an event moves the one intent it names to the state of its kind, a fill only when it is new; no other intent changes |
| StreamEffects.UnknownIntentWhen | crates/copytrade-observer/src/production_state.rs:203-306 | an event other than an acceptance is refused exactly when the intent it moves is unknown; every other refusal is the ledger's |
| StreamEffects.SnapshotBlocksWhatDiffers | crates/copytrade-observer/src/production_state.rs:255-268 | after a position snapshot an asset is blocked if and only if its local and exchange positions differ, and both are recorded; no other event blocks or releases |
| StreamEffects.SnapshotComparesEquity | crates/copytrade-observer/src/production_state.rs:269-277 | an equity snapshot records both figures if and only if they differ, and never changes the trading state |
| StreamEffects.TradesAreReplanned | crates/copytrade-observer/src/production_state.rs:232-254 | assets are marked for replanning by new fills and funding events and by nothing else |
| StreamEffects.OnlyTradesReachTheState | crates/copytrade-observer/src/production_state.rs:203-288 | fills and funding events reach the trading state, which accepts them; no other event changes it |
| StreamEffects.BlockedSinceTheLastSnapshot | crates/copytrade-observer/src/production_state.rs:197-294 | after any part of a stream, an asset is blocked if and only if it differed at the last position snapshot, from the positions of that moment |
| StreamEffects.EquityComparedLast | crates/copytrade-observer/src/production_state.rs:197-294 | and the equity mismatch is that of the last equity snapshot against the equity of that moment |
| StreamEffects.KnownIntentsWereAccepted | crates/copytrade-observer/src/production_state.rs:197-306 | after any part of a stream an intent is known if and only if its acceptance was in it |
| StreamEffects.IntentIsWhereItWasMoved | crates/copytrade-observer/src/production_state.rs:197-306 | and is in the state of the last event that moved it |
| StreamEffects.ReplannedWereTraded | crates/copytrade-observer/src/production_state.rs:197-294 | an asset is marked for replanning if and only if some new fill or funding event was for it |
| StreamEffects.StreamIsATradingRun | crates/copytrade-observer/src/production_state.rs:197-294 | the trading state behind a stream is that of a run of its fills and funding events alone |
| ProductionState.EveryRunFollowsTheStream | crates/copytrade-observer/src/production_state.rs:140-195 | for any stream with one fixed event per number, failing on the way or not: every run is at the in-order application of the stream's first events, and buffers only later events of the stream under their own numbers |
| ProductionState.RunsStopAtTheFirstFailure | crates/copytrade-observer/src/production_state.rs:140-195 | and no run passes the first event that fails in order |
| StreamEffects.DeliveriesBlockWhatDiffers | crates/copytrade-observer/src/production_state.rs:140-268 | whatever was delivered of a stream, in any order and with failures, an asset is blocked if and only if it differed at the last position snapshot applied |
| StreamEffects.DeliveriesAreATradingRun | crates/copytrade-observer/src/production_state.rs:140-254 | and the trading state is that of a run of the fills and funding events applied, so what is proved of all such runs holds of it |
| ProductionState.DeliveryFollowsTheStream | crates/copytrade-observer/src/production_state.rs:140-195 | a delivery from a good stream is refused only for a full window, and then without effect; otherwise the state is again determined by what was accepted |
| ProductionState.DeliveriesDetermineTheState | crates/copytrade-observer/src/production_state.rs:140-294 | after any deliveries of a good stream the highest sequence is the longest accepted prefix, the buffer is exactly the accepted rest, and everything else is the in-order fold of that prefix |
| ProductionState.DeliveryOrderIsIrrelevant | crates/copytrade-observer/src/production_state.rs:140-294 | two ways of delivering a good stream with the same accepted sequences end in the same state |
| ProductionState.CompleteDeliveryAppliesTheStream | crates/copytrade-observer/src/production_state.rs:140-294 | once every event is accepted the stream has been applied in order and nothing is buffered |
| ProductionState.WindowedDeliveriesAreAccepted | crates/copytrade-observer/src/production_state.rs:163-180 | no delivery of a good stream is refused while each lies within 256 of the longest prefix delivered before it |
| ProductionState.WindowedDeliveryAppliesTheStream | crates/copytrade-observer/src/production_state.rs:140-294 | so a stream delivered completely within that window, in any order and with duplicates, ends in its in-order application |
| PortfolioRanges.ActiveOpenExposure | crates/copytrade-core/src/portfolio_risk.rs:371-404 | succeeds exactly when every order that counts is known, with each asset's total of what may be bought and sold; otherwise reports the first unknown order |
| PortfolioRanges.RangeMetrics | crates/copytrade-core/src/portfolio_risk.rs:567-580 | the sums of worst magnitudes, of minimums and of maximums |
| PortfolioRanges.RangesBoundEveryOutcome | crates/copytrade-core/src/portfolio_risk.rs:532-565 | for every fraction that each open order and each delta may fill, every asset ends inside its projected range |
| PortfolioRanges.EveryOutcomeIsWithinCaps | crates/copytrade-core/src/portfolio_risk.rs:532-676 | ranges within the caps keep the asset, gross and net exposure of every outcome within them |
| PortfolioRanges.FilledAreNoWorse | crates/copytrade-core/src/portfolio_risk.rs:582-676 | if ranges around the filled positions are within the caps, so are the filled positions |
| RangeExtremes.ExtremesAreReached | crates/copytrade-core/src/portfolio_risk.rs:532-565 | the ranges are no wider than they must be: one outcome takes each asset to whichever end of its range is asked for |
| RangeExtremes.MetricsAreReached | crates/copytrade-core/src/portfolio_risk.rs:567-580 | so the gross and both nets of the ranges are those of outcomes that can happen |
| TargetShaping.TrimGrossResidual | crates/copytrade-core/src/portfolio_risk.rs:426-462 | whatever left the sum above the cap, a success brings it to the cap by shrinking one largest target; it fails exactly when no target is as large as the residual |
| TargetShaping.ScaleTargetsToGrossCap | crates/copytrade-core/src/portfolio_risk.rs:406-424 | with any product at all a success is within the cap; with exact products it always succeeds, keeps every sign, enlarges nothing and scales every target by the one factor that meets the cap |
| TargetShaping.EnforceTargetNetCap | crates/copytrade-core/src/portfolio_risk.rs:464-497 | scales one side only, until the net is the cap; keeps signs and enlarges nothing |
| TargetShaping.RoundDeltaIsInward | crates/copytrade-core/src/portfolio_risk.rs:499-530 | rounding never turns a delta round or enlarges it, and fails exactly for a sale at a mark below one tick |
| TargetShaping.Clamp | crates/copytrade-core/src/portfolio_risk.rs:128-137 | a target within the cap stays, and any other is cut to the cap on its own side |
| TargetShaping.RoundDeltaIsNearest | crates/copytrade-core/src/portfolio_risk.rs:499-530 | a rounded delta is as many whole size steps as the delta pays for at the next grid price against the trade, less than one step short of it |
| RiskStaging.StageRiskReducingDeltas | crates/copytrade-core/src/portfolio_risk.rs:219-301 | the staging loop terminates without error, with each delta kept whole or dropped, and with the worst gross, worst net and every worst magnitude of doing nothing |
| RiskStaging.FindSmallestOffender | crates/copytrade-core/src/portfolio_risk.rs:277-291 | finds the smallest delta on the side that worsens the net, the first by name among equals, or none when there is none |
| RiskStaging.SomethingOffends | crates/copytrade-core/src/portfolio_risk.rs:262-291 | whenever the net is worse there is such a delta: the error for finding none is unreachable |
| RiskStaging.PruneStep | crates/copytrade-core/src/portfolio_risk.rs:262-293 | each round of the loop has fewer non-zero deltas and keeps what staging established |
| RiskStaging.PruningRestoresTheBaseline | crates/copytrade-core/src/portfolio_risk.rs:219-301 | the pruned vector's worst gross and worst absolute net equal those of taking no action exactly |
| RiskStaging.KeptWhen | crates/copytrade-core/src/portfolio_risk.rs:229-258 | a delta is kept in isolation if and only if it trades against the middle of its asset's range and no further than to the middle's mirror image |
| RiskStaging.PruningDropsTheLeast | crates/copytrade-core/src/portfolio_risk.rs:259-293 | pruning leaves or drops each delta whole, the smallest of a side first, and no more than it must: restoring the last one dropped would worsen the net, at the end that it pushes out |
| PortfolioRisk.CheckCaps | crates/copytrade-core/src/portfolio_risk.rs:615-635 | succeeds exactly for ranges within all three caps; otherwise names the first asset over its cap, the gross cap only when no asset is over, and the net cap only when neither an asset nor the gross is |
| PortfolioRisk.CheckNoWorse | crates/copytrade-core/src/portfolio_risk.rs:637-675 | beyond a cap, succeeds exactly when every action only reduces and neither worst gross nor worst net rises |
| PortfolioRisk.ValidateFinalRanges | crates/copytrade-core/src/portfolio_risk.rs:582-676 | which of the two checks applies, by whether the filled positions are within the caps |
| PortfolioRisk.ProposeDeltas | crates/copytrade-core/src/portfolio_risk.rs:144-174 | proposed deltas are target less filled less signed open exposure; fails exactly for a sale below one tick |
| PortfolioRisk.FaithfulEndsAtTargets | crates/copytrade-core/src/portfolio_risk.rs:144-174 | for every asset held, targeted or in an open order: what is filled, all open orders filled and the proposed delta add up to the constrained target |
| PortfolioRisk.ConstrainTargets | crates/copytrade-core/src/portfolio_risk.rs:127-142 | after clamp, gross and net scaling every target keeps its sign, none grows, and the vector meets the asset, gross and net caps |
| PortfolioRisk.ChosenIsWithinCaps | crates/copytrade-core/src/portfolio_risk.rs:176-196 | when taking no action is within the caps, so is the action chosen, staged or not |
| PortfolioRisk.BeyondCapsSucceedsWhen | crates/copytrade-core/src/portfolio_risk.rs:637-675 | from beyond the caps, gross and net are never worse after staging, so the final check passes if and only if each delta is opposite to what is filled and no larger |
| PortfolioRisk.BeyondCapsSucceedsIf | crates/copytrade-core/src/portfolio_risk.rs:229-293 | enough for that, before any pruning: every rounded delta that leaves its asset's worst exposure no larger trades back no more than is filled |
| PortfolioRisk.RestingPortfolioIsProjected | crates/copytrade-core/src/portfolio_risk.rs:107-217 | with no order open and no target across zero from its position the action is safe, however far beyond the caps |
| PortfolioRisk.ReversalPastZeroIsRefused | crates/copytrade-core/src/portfolio_risk.rs:637-675 | an input whose staged delta leaves the worst exposure as it was and is refused for trading past zero |
| PortfolioRisk.ProjectAndValidatePortfolio | crates/copytrade-core/src/portfolio_risk.rs:107-217 | succeeds if and only if the input is valid with known open orders, every sale can be rounded, and the action is safe: from filled positions within the caps, doing nothing stays within them, and then its ranges do; from beyond a cap, its action only trades back what is filled, and then makes nothing worse |
| PortfolioRisk.ProjectionIsSoundForEveryOutcome | crates/copytrade-core/src/portfolio_risk.rs:107-217 | a projection returned from filled positions within the caps keeps every outcome of its own deltas and the open orders within every cap |
| ProjectionLaws.InputIsRefusedAs | crates/copytrade-core/src/portfolio_risk.rs:303-353 | which input is refused as what: scalars out of range, then incomplete positions, then incomplete orders, then the first asset by name without usable market rules |
| ProjectionLaws.ReportedFiguresAreReached | crates/copytrade-core/src/portfolio_risk.rs:107-217 | the gross and both nets that a projection reports are reached by outcomes of its own orders and deltas |
| ProjectionLaws.StagingKeepsWhatItCan | crates/copytrade-core/src/portfolio_risk.rs:176-301 | the whole rounded vector when its ranges meet the caps; otherwise the deltas against the middle of their ranges, all of them when the net allows, and else without the smallest that had to go |
| ProjectionLaws.ActionIsProposedInSteps | crates/copytrade-core/src/portfolio_risk.rs:144-196 | each delta of the action is zero or its proposed delta in whole steps at the price it will carry |
| ProjectionLaws.OneFactorIsEnough | crates/copytrade-core/src/portfolio_risk.rs:127-142 | when the gross cap binds and its factor meets the net cap too, that factor is all that the clamped targets are scaled by |
| RateBudget.WeightedTokenBucket.RefillTo | crates/copytrade-core/src/scheduler.rs:460-489 | refill by elapsed time, capped, and restart of the accounting window |
| RateBudget.WeightedTokenBucket.TryCharge | crates/copytrade-core/src/scheduler.rs:370-444 | the decision and the four balances and counts after a charge or a refusal |
| RateBudget.WeightedTokenBucket.Take | crates/copytrade-core/src/scheduler.rs:426-442 | which balances and counts an affordable charge is taken from |
| RateBudget.RunIsSound | crates/copytrade-core/src/scheduler.rs:370-489 | no balance or count ever leaves its bounds; source with enrichment units never exceed normal units; normal counts are the source and enrichment counts and never exceed total ones |
| RateBudget.CriticalChargesMayUncoverNormalUnits | crates/copytrade-core/src/scheduler.rs:426-431 | normal units may exceed total ones: a new bucket on which one critical charge beyond the reserve leaves five total units and eight normal ones |
| RateBudget.OverweightIsForGood | crates/copytrade-core/src/scheduler.rs:370-395 | after any run a charge is answered overweight if and only if it weighs more than a pool it draws on |
| RateBudget.RateEnvelope | crates/copytrade-core/src/scheduler.rs:370-489 | over any part of any run the weight charged to a pool, in units, is at most what it held and what the elapsed time refilled, so at most its capacity and that refill |
| RateBudget.WindowConsumption | crates/copytrade-core/src/scheduler.rs:383-444 | until the accounting window restarts a pool's count grows by exactly what was charged and never beyond its weight |
| RateBudget.PollingIsHarmless | crates/copytrade-core/src/scheduler.rs:446-489 | any refills on the way leave the balances of one refill at the end |
| RateBudget.RunIsolates | crates/copytrade-core/src/scheduler.rs:370-489 | while critical charges fit a bucket of the reserved weight, total units stay at least normal units and that bucket, whatever the other traffic |
| RateBudget.ReserveIsolation | crates/copytrade-core/src/scheduler.rs:324-489 | from a new bucket, a critical charge that the reserve and its window count can cover is never refused |
| BudgetLaws.NewBucketIsFull | crates/copytrade-core/src/scheduler.rs:324-368 | every pool of a new bucket is full, the normal one with what the reserve leaves and the enrichment one with what the source leaves of that |
| BudgetLaws.RefillAddsByTime | crates/copytrade-core/src/scheduler.rs:460-489 | each millisecond adds a pool's weight in units up to its capacity; counts start again exactly when time has passed and the window is over |
| BudgetLaws.ChargedWhen | crates/copytrade-core/src/scheduler.rs:370-426 | a charge is made if and only if every pool it draws on covers it, in its window and in units |
| BudgetLaws.ChargeTakesItsWeight | crates/copytrade-core/src/scheduler.rs:370-444 | a charge takes its weight from exactly the pools it draws on, and a refusal takes nothing |
| ReadRequests.NewBudget | crates/copytrade-core/src/scheduler.rs:324-368 | a bucket is built exactly from a policy that is valid as a whole, full in every pool |
| ReadRequests.NoRequestIsOverweight | crates/copytrade-core/src/scheduler.rs:888-927 | under a valid policy the overweight rejection of `schedule` is unreachable |
| ReadRequests.AdmittedIsOverweightWhen | crates/copytrade-core/src/scheduler.rs:166-181 | a request that a valid policy admits is never charged by the budget, and answered overweight every time, if and only if it is a source read heavier than the source pool or a normal one heavier than the enrichment pool |
| ReadRequests.HeavyPollIsAdmittedAndNeverCharged | crates/copytrade-core/src/scheduler.rs:166-181 | a valid policy and an admitted source read of that kind |
| ReadRequests.DispatchOrderIsTransitiveWhen | crates/copytrade-core/src/scheduler.rs:1045-1071 | the dispatch comparator is transitive on all requests if and only if the two tiers' fairness ratios are equal |
| ReadRequests.MixedRequestsStandInACircle | crates/copytrade-core/src/scheduler.rs:1045-1071 | three requests of one priority, each dispatched before the next, after a single dispatch |
| ReadRequests.UnmixedIsTransitive | crates/copytrade-core/src/scheduler.rs:1045-1071 | on three requests of which tiered and untiered ones do not mix it is transitive anyway |
| ReadRequests.DelayIsWithinJitter | crates/copytrade-core/src/scheduler.rs:541-569 | a computed delay stays within its jitter of a backoff within the maximum; a server's delay is kept; when there is no delay |
| ReadRequests.RetryIsBounded | crates/copytrade-core/src/scheduler.rs:929-966 | a retry is the same request one attempt later, in the future, before expiry, inside its lifetime and below the attempt maximum, and newer than what it replaces |
| ReadRequests.RetriesStop | crates/copytrade-core/src/scheduler.rs:929-966 | a chain of retries is shorter than the attempt maximum |
| RetryLaws.BackoffDoubles | crates/copytrade-core/src/scheduler.rs:541-569 | the backoff starts at the initial one and doubles up to the maximum |
| RetryLaws.JitterIsPickedByHash | crates/copytrade-core/src/scheduler.rs:541-569 | the jitter span is the configured share of the backoff rounded down, and the hash picks a delay from the whole span on both sides |
| RetryLaws.RetryStopsWhen | crates/copytrade-core/src/scheduler.rs:929-966 | when there is no further attempt and which outcome that is; otherwise the same request waits exactly its delay |
| RetryLaws.DelayIsNothingWhen | crates/copytrade-core/src/scheduler.rs:541-569 | a delay is nothing, which ends the retries, if and only if it is computed, the jitter is full and the hash picks the lower end |
| DispatchOrder.SortSorts | crates/copytrade-core/src/scheduler.rs:790-798 | where the comparator is an order, the sorted requests are in that order |
| QueueMachine.EvictionIsSound | crates/copytrade-core/src/scheduler.rs:1003-1036 | evicting one entry leaves a sound queue with room and touches nothing in flight |
| QueueMachine.RoomIsDetermined | crates/copytrade-core/src/scheduler.rs:1011-1026 | which entry gives way is determined: of the least-valued ones a pending one before a successor, and then the smallest key |
| QueueMachine.StepIsSound | crates/copytrade-core/src/scheduler.rs:619-856 | every schedule, begin and release keeps pending and in-flight keys disjoint, successors among those in flight, entries under their own keys, the queue within capacity, and permits conserved |
| QueueMachine.EveryRunIsSound | crates/copytrade-core/src/scheduler.rs:619-856 | from an empty scheduler, at every point of any interleaving of calls |
| QueueMachine.DispatchesAreChargedOnce | crates/copytrade-core/src/scheduler.rs:800-812 | over any run the budget is charged exactly the weights of the requests dispatched |
| QueueMachine.DispatchRateIsBounded | crates/copytrade-core/src/scheduler.rs:779-825 | over any run what is dispatched from a pool is at most its capacity and what the elapsed time refilled |
| QueueMachine.ChosenTierIsBehind | crates/copytrade-core/src/scheduler.rs:1045-1071 | while source reads of one priority of both tiers wait, the one dispatched is of a tier that is not ahead of its share |
| QueueMachine.DispatchesAreFair | crates/copytrade-core/src/scheduler.rs:726-825 | while both tiers stay backlogged so, the cross products of counts and targets never differ by more than the larger target, across dispatches and window clears |
| DispatchLaws.DispatchOrderIs | crates/copytrade-core/src/scheduler.rs:1045-1071 | the comparator puts the higher priority first; within one, the tier further behind its target, and then the earlier expiry, creation and key |
| DispatchLaws.ValueOrderIs | crates/copytrade-core/src/scheduler.rs:1038-1043 | worth less in a full queue is a lower priority, and within one a later expiry and then a later creation |
| DispatchLaws.DispatchTakesTheFirst | crates/copytrade-core/src/scheduler.rs:779-825 | what is dispatched was due and unexpired, and no affordable request that was due has a higher priority or comes before it within its own, wherever the comparator is an order |
| DispatchLaws.NothingDispatchedWhen | crates/copytrade-core/src/scheduler.rs:779-825 | nothing is dispatched only without a permit or when nothing due is affordable, and then only expired entries leave |
| DispatchLaws.DispatchMovesOne | crates/copytrade-core/src/scheduler.rs:779-825 | a dispatch moves one request into flight for one permit and counts its tier once; expired entries leave and all others stay |
| DispatchLaws.ReleaseMovesOne | crates/copytrade-core/src/scheduler.rs:654-696 | a release gives back one permit and lets the successor wait in the released key's place; every other entry stays |
| DispatchLaws.RefusedWhen | crates/copytrade-core/src/scheduler.rs:888-927 | a request is invalid exactly when kind, weight, class, tier, candidate or times do not fit together, and expired from its expiry on |
| DispatchLaws.SameKeyKeepsTheNewer | crates/copytrade-core/src/scheduler.rs:738-770 | an entry of the same key gives way exactly to a request created later, or created with it and of a later attempt |
| DispatchLaws.NewKeyNeedsRoom | crates/copytrade-core/src/scheduler.rs:1003-1036 | a new key is refused exactly when the queue is full and no non-critical entry is worth less; otherwise at most one such entry goes, than which none is worth less |
| DispatchLaws.RefreshingClears | crates/copytrade-core/src/scheduler.rs:637-652 | scheduling first drops what has expired, and starts the fairness counts again exactly when their window is over |
| ReadScheduler.RequestScheduler.New | crates/copytrade-core/src/scheduler.rs:708-724 | built exactly from valid policies, with every permit free and nothing waiting |
| ReadScheduler.RequestScheduler.MakeQueueRoom | crates/copytrade-core/src/scheduler.rs:1003-1036 | a full queue gives up the first of the least-valued non-critical entries, pending before successors and by key, and only for a strictly more valuable one; when it refuses, no entry was evictable for it |
| ReadScheduler.RequestScheduler.FindFirstToGo | crates/copytrade-core/src/scheduler.rs:1011-1026 | the entry that gives way and its role, or none when every entry is critical |
| ReadScheduler.FindLowest | crates/copytrade-core/src/scheduler.rs:1011-1026 | the first in key order of the least-valued non-critical entries of one role, or none when all are critical |
| ReadScheduler.RequestScheduler.Schedule | crates/copytrade-core/src/scheduler.rs:726-777 | validation, purge, window roll and admission, as the queue machine's schedule step |
| ReadScheduler.RequestScheduler.Admit | crates/copytrade-core/src/scheduler.rs:738-776 | which of replacing, succeeding, joining and refusing happens to a valid request |
| ReadScheduler.RequestScheduler.CollectEligible | crates/copytrade-core/src/scheduler.rs:784-790 | exactly the pending requests whose time has come, in key order |
| ReadScheduler.RequestScheduler.ChargeFirst | crates/copytrade-core/src/scheduler.rs:800-811 | charges the first affordable request in order, once, and nothing before it |
| ReadScheduler.RequestScheduler.Choose | crates/copytrade-core/src/scheduler.rs:784-812 | the request taken is eligible, affordable, and comes before every other affordable one wherever the comparator is an order, so that none has a higher priority |
| ReadScheduler.RequestScheduler.BeginNext | crates/copytrade-core/src/scheduler.rs:779-825 | the queue machine's begin step, with a fresh active handle for what was taken |
| ReadScheduler.RequestScheduler.ReleaseDispatch | crates/copytrade-core/src/scheduler.rs:654-696 | a handle gives back its key and permit once, and a successor takes its place; a second release does nothing |
| ReadScheduler.RequestScheduler.Finish | crates/copytrade-core/src/scheduler.rs:827-856 | release, then superseded, a graded response, a permanent or invalid outcome, or a scheduled retry |
| Lifecycle.RunAdvances | crates/copytrade-core/src/lifecycle.rs:164-425 | along any run a known order reference and the action never change, a known fill never falls, and filled, cancelled and rejected orders never change |
| Lifecycle.NotFoundIsConfirmed | crates/copytrade-core/src/lifecycle.rs:226-312 | not found is concluded only on the required number of not-found observations of the run, in order, spaced by the minimum interval and inside the lifetime |
| Lifecycle.ConfirmationsConclude | crates/copytrade-core/src/lifecycle.rs:226-312 | and that many such observations do conclude it, at the last of them and not before |
| Lifecycle.AttemptLimitIsUnreachable | crates/copytrade-core/src/lifecycle.rs:226-312 | no run from before a submission ever meets the attempt-limit error |
| LifecycleLaws.ReportIsAcceptedWhen | crates/copytrade-core/src/lifecycle.rs:226-425 | exactly when a report of an order is accepted in each state, and which error it meets otherwise |
| LifecycleLaws.OrderIsAsReported | crates/copytrade-core/src/lifecycle.rs:315-425 | an accepted report leaves the order as reported: open, or filled by what is no longer remaining, or filled, cancelled or rejected, under its reference |
| LifecycleLaws.NotFoundIsIgnoredWhen | crates/copytrade-core/src/lifecycle.rs:226-312 | not being found changes nothing once anything is known of the order, and is refused before its submission |
| LifecycleLaws.NotFoundCountsWhen | crates/copytrade-core/src/lifecycle.rs:226-312 | of an unknown submission, which not-found observations are refused, repeat the last, count, or conclude |
| LifecycleLaws.StepsToSubmission | crates/copytrade-core/src/lifecycle.rs:164-225 | the steps before and up to an unknown submission: each accepted exactly in its order and for its own decision, action and time |
| LifecycleLaws.RunKeepsTheDecision | crates/copytrade-core/src/lifecycle.rs:164-425 | along any run the order stays that of its decision |
| LifecycleLaws.RunEndsAsReported | crates/copytrade-core/src/lifecycle.rs:164-425 | along any run the order ends as the last accepted report said |
| LifecycleRegistry.Registry.New | crates/copytrade-core/src/lifecycle.rs:507-517 | a registry needs a positive capacity |
| LifecycleRegistry.Registry.Insert | crates/copytrade-core/src/lifecycle.rs:519-533 | which error a new entry meets; otherwise it is entered and indexed, and the index still equals the scan |
| LifecycleRegistry.Registry.Apply | crates/copytrade-core/src/lifecycle.rs:535-561 | one entry's transition; a reconciliation conflict blocks its asset and changes no entry |
| LifecycleRegistry.Registry.AuthorizationForAsset | crates/copytrade-core/src/lifecycle.rs:563-578 | the answer read from the index is that of a scan over all entries |
| LifecycleRegistry.Registry.CompactTerminal | crates/copytrade-core/src/lifecycle.rs:580-601 | removes the first terminal entries by identifier, as many as asked, and changes no asset's authorization |
| LifecycleRegistry.IndexFollowsRemoval | crates/copytrade-core/src/lifecycle.rs:580-601 | taking an identifier out of its asset's set, and the set out when empty, keeps the index exact |
| LifecycleRegistry.CompactionKeepsAuthorization | crates/copytrade-core/src/lifecycle.rs:563-601 | removing any first terminal entries changes no scan |
| Shadow.ValidateBook | crates/copytrade-core/src/shadow.rs:341-365 | comparing neighbours accepts exactly the books with positive levels and strictly worsening prices throughout |
| Shadow.WalkFillsWhatIsThere | crates/copytrade-core/src/shadow.rs:228-256 | the walk takes no more than each level holds and fills the smaller of the request and the whole depth within the limit |
| Shadow.GreedyWalkIsOptimal | crates/copytrade-core/src/shadow.rs:228-256 | no other way of taking the filled quantity from the book costs less on a buy or earns more on a sell |
| Shadow.WalkDepth | crates/copytrade-core/src/shadow.rs:228-256 | the loop computes that walk's quantity and value, and filled with remaining is the request |
| Shadow.ExecuteShadowIoc | crates/copytrade-core/src/shadow.rs:219-312 | succeeds exactly for accepted inputs; what it reports follows from an optimal fill of the depth within the limit; otherwise which of the four errors it is |
| Shadow.RoundPriceOutward | crates/copytrade-core/src/shadow.rs:203-217 | the nearest grid price on the aggressive side, for positive values and ticks only |
| Shadow.WorstRequiredIsLeastSufficient | crates/copytrade-core/src/shadow.rs:148-158 | the worst required price is the best limit within which the whole request is there, and exists exactly when the book is deep enough |
| Shadow.LeadingDepthIsAll | crates/copytrade-core/src/shadow.rs:184-192 | in an ordered book the leading levels within a limit are all the depth within it |
| Shadow.PlanMarketableIoc | crates/copytrade-core/src/shadow.rs:125-201 | the plan's mode, limit and visible quantity, and exactly when there is one |
| Shadow.PlannerPredictsExecutor | crates/copytrade-core/src/shadow.rs:125-312 | executed at its limit on its snapshot a plan fills exactly what it called visible: all of the request from complete depth, less from the fallback |
| Shadow.PlannedLimitIsPositiveWhen | crates/copytrade-core/src/shadow.rs:203-217 | a planned limit is positive, as the executor demands, exactly for buys and for raw prices of at least a tick |
| Shadow.CompleteDepthIsWithinBoundWhen | crates/copytrade-core/src/shadow.rs:167-182 | the limit is within the reference bound if and only if the book is too shallow, or has the whole request at prices up to the bound divided by the cushion factor |
| Shadow.CompleteDepthExceedsReferenceBound | crates/copytrade-core/src/shadow.rs:167-182 | a valid book, the plan made for it and its bound: 200 against 101 |
| Canonical.Writer.WriteValue | crates/copytrade-core/src/decision.rs:732-784 | the recursive writer appends the value's encoding, or fails with its error |
| Canonical.Writer.WriteEntries | crates/copytrade-core/src/decision.rs:772-781 | the entries of an object, in key order |
| Canonical.EncodingIsUniquelyDecodable | crates/copytrade-core/src/decision.rs:728-842 | two encodings followed by anything are equal if and only if they encode the same value and what follows is the same |
| Canonical.SameValuesEncodeAlike | crates/copytrade-core/src/decision.rs:772-781 | the order of an object's keys does not change its encoding, at any depth |
| CanonicalReader.EncodingReadsBack | crates/copytrade-core/src/decision.rs:728-842 | round trip: a reader written from the format alone reads every encoding back as its value with the keys in order, and leaves what follows |
| CanonicalReader.KeyOrderIsNoMatter | crates/copytrade-core/src/decision.rs:772-781 | that value with its keys in order is the value encoded |
| SnapshotSet.DerivePreimage | crates/copytrade-core/src/decision.rs:180-208 | sort, duplicate check and write give the specified preimage or error |
| SnapshotSet.FindDuplicate | crates/copytrade-core/src/decision.rs:185-191 | the first pair of equal neighbours |
| SnapshotSet.DuplicateFreeWhen | crates/copytrade-core/src/decision.rs:184-191 | after sorting, no equal neighbours means no duplicates at all |
| SnapshotSet.MemberOrderDoesNotMatter | crates/copytrade-core/src/decision.rs:180-208 | a permutation of the members gives the same preimage, or the same error |
| SnapshotSet.PreimageIsInjective | crates/copytrade-core/src/decision.rs:180-208 | two member lists share a preimage if and only if one is a permutation of the other |
| SnapshotSet.PreimageExistsWhen | crates/copytrade-core/src/decision.rs:180-208 | there is one exactly for distinct candidates with forward freshness intervals and 32-bit lengths |
| SnapshotSet.DuplicateIsTheFirstByName | crates/copytrade-core/src/decision.rs:184-191 | the candidate reported as a duplicate is the first by name of those that stand twice |
| SnapshotReader.PreimageReadsBack | crates/copytrade-core/src/decision.rs:180-208 | round trip: a reader of domain, count and member fields reads every preimage back as its members in order of candidate |

## Left out

- Decimal rounding and overflow: every amount is an exact real, except in gross scaling, where the product is arbitrary; a `-0` does not exist.
- SHA-256 and `canonical_payload_hash`: identities are what is hashed, and the payload hash is an arbitrary function that may fail.
- Persistence, serialisation, schema versions and timestamps that only pass through: the checks that `load` makes are stated as predicates, reading and writing files is not.
- Ledger.EpisodeBook.OpenNew: the episode counter does not run out at 2^64.
- Ledger.EpisodeBook.Equity: models the book's own loop; the portfolio-level copy of it, which also subtracts unbooked funding, is the same sum.
- The per-source books, attribution residuals, and the strategy attribution tables and event cursors of the live state: bookkeeping beside the accounts, in the same shape as what is modelled.
- LiveTrading.LiveTradingState.ApplyExchangeFill: a journal entry holds the fill itself instead of a copy of its fields, and carries no strategy attribution.
- ProductionState.ProductionTradingState.Perform: an accepted intent is represented by its planned order identifier.
- LifecycleRegistry.Registry.Insert: a planned order identifier is a number, which orders identifiers as their bytes do; the retry planner and the read-only lookup interface are not modelled.
- RateBudget.WeightedTokenBucket.TryCharge: units are weight times window length, as in the source; the two read-only accessors of available weight and 128-bit saturation, which no valid policy reaches, are not modelled.
- ReadRequests.DelayIsWithinJitter: the jitter hash of a request is a parameter.
- ReadScheduler.RequestScheduler.Choose: sorting is a stable insertion sort; where the comparator is not an order, which affordable request is taken is left open. There the source's `sort_by` may also panic (Rust 1.81 and later; no toolchain is pinned), which would poison the queue's lock; the model takes the sort to return.
- QueueMachine.EveryRunIsSound: holds for calls that return, and so assumes that the sort does.
- ReadScheduler.RequestScheduler.Schedule: the counters of expired, superseded and dispatched requests, health reports and the snapshot store are not modelled; clocks are parameters and each call is one atomic step.
- Allocation, confidence, consensus, exit planning, execution floors, deployment equity, target state, technical indicators and cohort scoring: single formulas, clamps or floating-point statistics.
- The signer handoff client and the disconnected legacy runtime under `src/`: I/O, and guarantees that rest on programs not in the repository.

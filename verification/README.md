# A model of TradeMind's trading core

TradeMind turns closed market candles into signals, lets a deterministic Risk Engine approve or reject them,
sends approved orders to an exchange bot, and audits everything. This project models the small state machines
behind that and proves what they keep over whole runs.

Conventions: `Decimal` is `real`, instants are microseconds as `int`, pairs and database rows are numbered,
an expression that raises yields `Failure`. Code that updates fields in place is a class or a method with
loops, proved against functions that the whole-run lemmas are about.

| part | files |
|---|---|
| risk evaluator and sizing | `Risk`, `RiskFacts` |
| historical replay | `Replay` (specification), `ReplaySimulator` (the class), `ReplayAccount`, `ReplayFills`, `ReplayMoney`, `ReplayOrders`, `ReplayExits`, `ReplayCash`, `ReplayCausality`, `ReplayApprovals`, `ReplayLookAhead`, `ReplaySolvency`, `ReplayExamples` |
| backtest ledger | `LedgerModel` (specification), `Ledger` (the class), `LedgerFacts` |
| orders, positions, reconciliation | `OrderStore`, `OrderSession`, `ReconcileSpec`, `ReconcileFacts`, `ReconcileOutcome`, `Reconciliation`, `ReconcileLaws`, `OrderRuns`, `OrderExamples` |
| signal delivery | `DeliveryModel`, `DeliveryFacts`, `DeliveryLaws`, `DeliveryAudit` |
| account state and performance | `LossClusters`, `Performance`, `Breakdowns` |
| pre-filter and semantic validator | `Semantic`, `SemanticLaws`, `Pipeline` |
| shared | `Common`, `Arithmetic`, `Sums`, `Sorting` |

`dafny verify dfyconfig.toml` checks the whole project.

## Where the code and its documentation differ

The model follows the code; the member that settles each difference is named.

- A cluster window of 0 is documented as counting every losing position separately
  (services/common/config.py:116-120), but losses with equal close times still merge
  (services/risk_engine/app/account_state.py:52): `LossClusters.ZeroWindowCountsInstants`.
- Actual risk is documented as always at most the nominal figure (services/risk_engine/app/sizing.py:20-24). A size
  scale above 1, which the configuration accepts, breaks that: `RiskFacts.EnlargedRiskExceedsNominal`, and exactly
  when, `RiskFacts.ActualRiskWithinNominalIff`. For a scale that only shrinks and a positive
  stop distance it holds exactly when the nominal budget is not negative: `RiskFacts.ShrunkRiskWithinNominalIff`.
- A stream message is documented as redelivered after a failure (services/risk_engine/app/main.py:503-505), but
  consumers only ask for new messages (main.py:530). Redelivery is therefore a parameter of a run.
- The decision key expires after 24 hours while the accepted signal age is any configured number of minutes.
  As the loop is written each signal is acted on once for every age; once messages are redelivered, exactly
  when that age stays below the key's lifetime: `DeliveryLaws.OncePerSignalIff`.
- A consumer that stops between its request and its commit leaves a sent order without a decision, and that is
  the only way to lose one: `DeliveryLaws.SentWithoutDecision`, `DeliveryLaws.SubmissionsRecordedIff`. With
  redelivery its only decision on record is a rejection: `DeliveryLaws.SentButRecordedAsRejected`.
- The cycle lock is documented as keeping a pair's cycles apart; it does exactly when every cycle ends before the
  lock's five minutes: `DeliveryLaws.LockExcludesIff`.
- A BUY can be approved with a stake of zero, and the replay then divides by a zero cost when it closes it:
  `ReplayCausality.ApprovedZeroStakeIff`, as a run `ReplayExamples.ZeroStakeReplayRaises`, and exactly when,
  `ReplayCausality.RunRaisesIff`.
- The risk configuration does not bound the minimum size scale; a negative one buys negative stakes
  (`ReplayExamples.NegativeScaleBuysNegativeStake`) and can overdraw the account. Which configurations keep every
  replay solvent is `ReplaySolvency.AlwaysSolventIff`; a replay that queues no negative stake stays solvent
  (`ReplayMoney.OwingNothingStaysSolvent`).
- The replay is documented as chronological (tools/historical_replay/simulator.py:49), but it finishes one pair's
  candle before it fills another pair's order at the same open, so the fill may spend cash released later:
  `ReplayLookAhead.LaterLowDecidesFill`, and exactly when, `ReplayLookAhead.SharedOpenFillIff`.
- The size cap leaves no room for the fee, so an approved BUY of the whole free balance is dropped:
  `ReplayExamples.FullBalanceReplayDrops`, and exactly when coverage breaks, `ReplayCash.StepCoveredIff`.
- The replay looks its ROI target up at the candle's close even when it fills at the open, so a trade may net
  less than the table asks for its own holding time: `ReplayExamples.UndercutReplay`, and exactly when,
  `ReplayExits.RunUndercutsIff`.
- The backtest and the live strategy must be kept in step by hand, but the backtest anchors the stop to the
  signal price and the live strategy to the fill. For an accepted distance tag `LedgerFacts.LedgerMatchesStrategyIff`
  says exactly when they agree at one peak, `LedgerFacts.StopsAgreeForLifeIff` over a position's whole life, and
  `LedgerFacts.FillGapMovesTheStop` shows a gap between signal and fill; a rejected distance switches the live trail
  off (`LedgerFacts.RejectedDistanceMatchesIff`), and the legacy absolute tag skips the floor (`LedgerFacts.LedgerMatchesLegacyTagIff`).
- A redelivered entry fill opens a second position for the same order; `OrderFlow.Session.HandleEntryFill` says
  when one fill keeps entries unique, `OrderRuns.Serve` when a whole run does.
- An exit fill whose order is linked to no position closes any open one on the pair, so a late fill can close
  another trade's: `OrderExamples.LateFillClosesAnotherTrade`, and exactly when, `OrderFlow.FillClosesItsTradeIff`.

## Model

| member | source | states |
|---|---|---|
| `RiskFacts.ApprovedIffAdmissible` | services/risk_engine/app/rules/__init__.py:23-36 | an entry is approved iff all the conditions the twelve gates stand for hold of it |
| `RiskFacts.ApprovalIgnoresGateOrder` | services/risk_engine/app/evaluator.py:54-100 | any permutation of the gates approves the same inputs with the same result |
| `RiskFacts.EvaluateApprovedIff` | services/risk_engine/app/evaluator.py:35-100 | evaluation approves iff its context is admissible, and hands out exactly the candidate sizing |
| `RiskFacts.FilterOnlyTightens` | services/risk_engine/app/rules/expectancy_filter.py:1-103 | enforcing the expectancy filter removes exactly the approvals of negative cohorts and changes nothing else |
| `RiskFacts.KillSwitchDominates` | services/risk_engine/app/evaluator.py:54-100 | an enabled switch is the reported reason; only the two loss gates trip it; a duplicate is never approved |
| `RiskFacts.ReasonReportedIff` | services/risk_engine/app/rules/__init__.py:23-36 | each reason is reported iff it applies and none before it in the list does; the switch trips iff a loss limit is hit and nothing before the two applies; the expectancy verdict is reported whatever the decision |
| `RiskFacts.SizeWithinClamps` | services/risk_engine/app/sizing.py:45-87 | a scale of at most 1 keeps the size within the risk budget, the position cap and the free balance, one of at least 0 keeps it non-negative; the actual risk is size times distance |
| `RiskFacts.SizeIsTightest` | services/risk_engine/app/sizing.py:59-87 | the size is the scale times the tightest of budget, cap and balance, or nothing when one is not positive; the base amount buys it at the price |
| `RiskFacts.DistanceFollowsAtr` | services/risk_engine/app/sizing.py:59-66 | between its bounds the stop distance is the multiplier's ATRs of the price, else the bound passed |
| `RiskFacts.ScaleIsLinear` | services/risk_engine/app/sizing.py:29-42 | the scale grows linearly from the floor at the minimum confidence to 1 at full confidence and stays at the nearer end outside |
| `RiskFacts.ZeroSizeIff` | services/risk_engine/app/sizing.py:67-74 | a size is zero iff the budget, the cap or the free balance is not positive or the confidence scale is zero |
| `RiskFacts.NegativeSizeIff` | services/risk_engine/app/sizing.py:67-74 | a size is negative iff all three are positive and the scale is negative |
| `RiskFacts.BalanceGateSilentIff` | services/risk_engine/app/rules/insufficient_balance.py:1-14 | the balance gate passes what sizing produced iff the scale does not enlarge past the balance what budget and cap leave, so always for a scale of at most 1 |
| `RiskFacts.ActualRiskWithinNominalIff` | services/risk_engine/app/sizing.py:59-87 | actual risk is at most nominal iff the budget is not negative and the scale does not enlarge the size past it; with its counterpart for negative stop distances |
| `RiskFacts.ShrunkRiskWithinNominalIff` | services/risk_engine/app/sizing.py:59-87 | for a scale of at most 1 and a positive stop distance, iff the budget is not negative |
| `RiskFacts.EnlargedRiskExceedsNominal` | services/risk_engine/app/sizing.py:29-42 | a scale of 2 risks 20 on a nominal budget of 10 |
| `RiskFacts.StopBelowEntryIff` | services/risk_engine/app/sizing.py:59-87 | the stop lies strictly between 0 and the price iff the distance lies strictly between 0 and 1 |
| `RiskFacts.HoldIgnoresConfidence` | services/risk_engine/app/evaluator.py:54-100 | a HOLD is rejected, and identically for every confidence |
| `RiskFacts.ExitApprovedIff` | services/risk_engine/app/exit_evaluator.py:47-71 | an exit is approved iff it is no duplicate, fresh, and there is a position, and otherwise refused for the first of the three that fails |
| `HistoricalReplay.ReplaySimulator.constructor` | tools/historical_replay/simulator.py:51-60 | a new simulator is in the specification's initial state |
| `HistoricalReplay.ReplaySimulator.Run` | tools/historical_replay/simulator.py:62-93 | the in-place run ends in the specified state or raises the specified error; net P&L is gross minus fees plus paper gains; unless an admissible signal is sized by a negative scale, drawdown is the curve's worst pair, within [0,1] |
| `HistoricalReplay.ReplaySimulator.ValidateAndOrderCandles` | tools/historical_replay/simulator.py:96-113 | sorted candles, or the first repeated or overlapping one, by sets and last closes kept along the way |
| `ReplayFills.WalksByTimeThenPair` | tools/historical_replay/simulator.py:96-113 | the walk visits the given candles by opening time, those of one time by pair |
| `HistoricalReplay.ReplaySimulator.IndexSignalRows` | tools/historical_replay/simulator.py:116-127 | signals by symbol and close, or the repeated key |
| `HistoricalReplay.ReplaySimulator.ExecutePending` | tools/historical_replay/simulator.py:129-158 | the due order is taken: filled, dropped for cash, or closed at the open |
| `HistoricalReplay.ReplaySimulator.ApplySafetyExits` | tools/historical_replay/simulator.py:160-193 | stop first, then ROI at the open, then ROI at the trigger |
| `HistoricalReplay.ReplaySimulator.ClosePosition` | tools/historical_replay/simulator.py:220-254 | cash, position and trade after a close, or a division by a zero cost |
| `HistoricalReplay.ReplaySimulator.ProcessSignal` | tools/historical_replay/simulator.py:256-316 | one evaluator call, the latched switch, the queued order and the recorded decision with the signal's confidence |
| `ReplayFills.RunReasons` | tools/historical_replay/simulator.py:256-316 | every decision is made at the close of a candle with its signal, never for a duplicate or an expectancy, and never for staleness under an age limit that is not negative |
| `ReplayFills.SizedAtClose` | tools/historical_replay/simulator.py:256-316 | an approved entry queues the size that account, candle close, ATR and confidence give |
| `HistoricalReplay.ReplaySimulator.GetAccountState` | tools/historical_replay/simulator.py:318-373 | the account view, whatever order the dictionaries yield their entries in |
| `ReplayAccount.AccountOfTrades` | tools/historical_replay/simulator.py:345-354 | the loss streak is the number of trades from which on everything lost, when losing trades never close together with others; its clock is the latest close of all; each traded symbol, no other, has its latest close |
| `ReplayAccount.AccountOfDay` | tools/historical_replay/simulator.py:355-363 | the daily P&L is what closed on the UTC day of the moment as a share of equity |
| `ReplayAccount.AccountOfRun` | tools/historical_replay/simulator.py:318-385 | in every replay equity is cash plus the positions at their symbols' latest closes, exposure one stake for each symbol held or about to be bought, free balance the cash not reserved with fees |
| `ReplayAccount.CurveOfRun` | tools/historical_replay/simulator.py:387-390 | the equity curve has one point for each candle, at its close, with the equity after it |
| `HistoricalReplay.ReplaySimulator.BuildSummary` | tools/historical_replay/metrics.py:17-53 | every reported figure as its definition over the trades, equity curve, decisions and marks; drawdown is the curve's worst pair, within [0,1], when the curve is never negative |
| `ReplayMoney.RunConservesMoney` | tools/historical_replay/simulator.py:129-158 | in every reachable state cash is starting equity plus closed net P&L minus the cost of open positions |
| `ReplaySolvency.AlwaysSolventIff` | tools/historical_replay/simulator.py:129-254 | when the other gates can pass: every replay of a configuration stays solvent, or just keeps its cash non-negative, iff the least confident admissible signal has no negative size scale or every entry is stopped out on its own candle |
| `ReplaySolvency.LowestScaleIsFloor` | services/risk_engine/app/sizing.py:29-42 | for a minimum confidence that is not negative that scale is not negative iff the configured one is not or the minimum is at least 1 |
| `ReplayMoney.OwingNothingStaysSolvent` | tools/historical_replay/simulator.py:129-254 | a replay that queued no negative stake before its last candle has non-negative cash and equity and funded positions |
| `ReplayMoney.NonNegativeFloorScales` | services/risk_engine/app/sizing.py:29-42 | a configured scale that is not negative sizes no signal by a negative one |
| `ReplayMoney.NonNegativeScalesOweNothing` | services/risk_engine/app/sizing.py:29-42 | signals whose admissible size scales are not negative queue no negative stake |
| `ReplayMoney.RunStaysSolvent` | tools/historical_replay/simulator.py:129-254 | so with such signals every replay stays solvent |
| `ReplayExamples.NegativeScaleBuysNegativeStake` | services/risk_engine/app/sizing.py:29-42 | a concrete replay whose negative scale opens a position of negative stake |
| `ReplayExits.PriceInvertsReturn` | tools/historical_replay/simulator.py:204-218 | a price nets a target iff it is the price computed for that target |
| `ReplayExits.HigherPriceHigherReturn` | tools/historical_replay/simulator.py:204-209 | the net return is strictly increasing in the exit price |
| `ReplayExits.TriggerAboveOpen` | tools/historical_replay/simulator.py:180-192 | a target missed at the open triggers strictly above it and nets it exactly |
| `ReplayFills.TargetByAge` | tools/historical_replay/simulator.py:195-202 | the ROI target is 10%, 5%, 2% and 0 by hours held, and never rises |
| `ReplayFills.RunFillsSlip` | tools/historical_replay/simulator.py:129-193 | in every replay an entry buys at its candle's open plus slippage and every exit sells at its reference less slippage |
| `ReplayExits.RunTradesSound` | tools/historical_replay/simulator.py:160-254 | in every replay, whatever its configuration, net is gross minus both fees, an ROI trade meets the target of a candle that took it, a stop loss nets one fixed negative fraction of its cost, and on a positive stake the first never loses and the second always does |
| `ReplayExits.SummaryIdentity` | tools/historical_replay/metrics.py:27-53 | net P&L is gross minus fees plus unrealised P&L, so the plain identity holds for runs that end flat |
| `ReplayExits.RunUndercutsIff` | tools/historical_replay/simulator.py:178-185 | a replay holds an ROI trade below its own holding time's target iff some candle above the stop opened between the targets due at its open and at its close |
| `ReplayExamples.UndercutReplay` | tools/historical_replay/simulator.py:178-185 | a concrete replay that holds one |
| `ReplayOrders.RunStaysCoupled` | tools/historical_replay/simulator.py:62-93 | between candles a waiting SELL's symbol is held, a waiting BUY's is not, and each order dates from its symbol's last candle |
| `ReplayOrders.PendingConsumedAtNextCandle` | tools/historical_replay/simulator.py:129-158 | a waiting order is always due at its symbol's next candle, which takes it and touches no other order or position |
| `ReplayOrders.NeverDecidesOverAPendingOrder` | tools/historical_replay/simulator.py:256-316 | no decision ever meets a waiting order of its symbol, so none is overwritten |
| `ReplayOrders.RunWithinPositionLimit` | tools/historical_replay/simulator.py:318-373 | positions and waiting entries together never exceed the position limit |
| `ReplayOrders.ApprovedBuysAreAccountedFor` | tools/historical_replay/simulator.py:129-158 | approved BUYs equal trades plus open positions plus waiting entries plus drops |
| `ReplayOrders.DropsOnlyForCash` | tools/historical_replay/simulator.py:137-142 | a dropped entry cost more than the cash; it is never dropped for a held symbol |
| `ReplayCash.StepCoveredIff` | tools/historical_replay/simulator.py:318-340 | a candle drops nothing while waiting entries are covered, and leaves them covered iff what it approves fits with its fee |
| `ReplayCash.CoveredEntriesAreFilled` | tools/historical_replay/simulator.py:129-158 | a replay whose waiting entries are covered, and owe nothing, after every candle drops no approved entry |
| `ReplayCash.FreeReplayStaysCovered` | tools/historical_replay/simulator.py:318-340 | without fees every replay whose admissible size scales are not negative is covered and drops nothing |
| `ReplayCash.FullBalanceEntryIsDropped` | tools/historical_replay/simulator.py:137-142 | with a fee, an entry of the whole cash is dropped |
| `ReplayExamples.FullBalanceReplayDrops` | tools/historical_replay/simulator.py:137-142 | a concrete replay that approves such an entry and drops it |
| `ReplayCausality.RunIsCausal` | tools/historical_replay/simulator.py:62-75 | every entry opens, and every signal exit closes, at the open of its symbol's candle just after the one whose decision approved it |
| `ReplayApprovals.ApprovalsAreSpentOnce` | tools/historical_replay/simulator.py:256-316 | by any moment a symbol's entries are at most its BUY approvals and its signal exits at most its SELL approvals; at the end every SELL approval was spent |
| `ReplayCausality.LaterDataNeverMatters` | tools/historical_replay/simulator.py:62-113 | deleting all candles from an opening time on, with their signals, leaves the state the full replay had at that point |
| `ReplayLookAhead.SharedOpenFillIff` | tools/historical_replay/simulator.py:68-75 | of two candles with one open, the second pair's entry is dropped iff its cost exceeds the cash plus what the first pair's candle releases, even after that open |
| `ReplayLookAhead.LaterLowDecidesFill` | tools/historical_replay/simulator.py:68-75 | two concrete replays that differ in one later low: the other pair's entry fills iff the low reaches the stop |
| `ReplayCausality.KillSwitchLatches` | tools/historical_replay/simulator.py:279-305 | once tripped the switch stays on and no entry is approved again |
| `ReplayCausality.TradesAfterTrip` | tools/historical_replay/simulator.py:279-305 | after a trip at most as many trades follow as there were positions and waiting entries |
| `ReplayCausality.RunRaisesIff` | tools/historical_replay/simulator.py:220-241 | a replay raises iff it reaches a candle that fills an entry of stake zero or whose signal divides by a stop distance of zero |
| `ReplayCausality.ApprovedZeroStakeIff` | services/risk_engine/app/sizing.py:67-74 | an entry is approved with stake zero iff every gate passes and the budget, cap or free balance is not positive or the scale is zero |
| `ReplayExamples.ZeroStakeReplayRaises` | tools/historical_replay/simulator.py:220-241 | a concrete replay that approves a zero stake and raises when it fills it |
| `BacktestLedger.Ledger.RecordClose` | scripts/backtest/ledger.py:166-199 | the close, the incremental loss counter and the cooldown clock |
| `BacktestLedger.Ledger.CheckStaticExit` | scripts/backtest/ledger.py:201-266 | the stop ladder, the gap fill and the ROI table of one candle, or a zero-entry failure |
| `LedgerFacts.CandleExitIff` | scripts/backtest/ledger.py:201-266 | a candle closes a held position iff it reaches the stop, at the smaller of open and stop, or else the target its age asks, at the larger of open and target; otherwise only the peak rises |
| `LedgerFacts.TargetNeverRises` | scripts/backtest/ledger.py:46-53 | every age has one target, from 6% in the first four hours to 0.5% after four days, and an older position is never asked more |
| `LedgerFacts.StopIsTightest` | scripts/backtest/ledger.py:222-250 | the stop in force is the tightest of the entry's stop, 8% below entry and, once the peak is 2% up, 1.5% below the peak |
| `BacktestLedger.Ledger.ApplyEntry` | scripts/backtest/ledger.py:268-316 | opens what the evaluator approved and records a trip either way |
| `LedgerFacts.EntryStartsAtFill` | scripts/backtest/ledger.py:301-316 | an approved entry adds one position whose life, peak and price start at the fill, with the approved size, stop and risk |
| `LedgerFacts.EntriesHaveNoHistory` | scripts/backtest/ledger.py:268-299 | no entry of the ledger is ever refused as a duplicate or for its expectancy |
| `BacktestLedger.Ledger.ApplyExitSignal` | scripts/backtest/ledger.py:318-337 | closes the held position of an approved exit |
| `BacktestLedger.Ledger.AccountState` | scripts/backtest/ledger.py:131-164 | the derived account values of the ledger's state |
| `LedgerFacts.RunStaysCapped` | scripts/backtest/ledger.py:131-143 | in every non-compounding run the position count is capped; exposure is when the size scale is not negative, each size when it is at most 1, each position's risk when also the minimum stop distance is positive |
| `LedgerFacts.OpenRiskIsBounded` | services/risk_engine/app/sizing.py:59-77 | with a size scale of at most 1, summed 1R of open positions is at most the position limit times the per-trade budget |
| `LedgerFacts.RunStaysBooked` | scripts/backtest/ledger.py:166-199 | the incremental counter is the trailing run of losing trades when the switch is honoured, realised P&L is the sum, cooldown clocks are latest exits |
| `LedgerFacts.RunAfterTrip` | scripts/backtest/ledger.py:276-299 | once tripped nothing is entered, and closed trades plus open positions stay constant |
| `LedgerFacts.StopNeverLoosens` | scripts/backtest/ledger.py:232-250 | while a position is open its stop never falls, its entry never changes, and every candle it survived stayed above the stop |
| `LedgerFacts.LedgerMatchesStrategyIff` | freqtrade/user_data/strategies/ExternalSignalStrategy.py:145-195 | for an entry sized at one price and filled at another, ledger and live stop agree iff the armed trail leads, or the fill was at the signal price, or above it with the distance at its bound |
| `LedgerFacts.StopsAgreeForLifeIff` | freqtrade/user_data/strategies/ExternalSignalStrategy.py:145-195 | the two stops agree at every peak iff the fill was at the signal price, or above it with the distance at its bound |
| `LedgerFacts.FillGapMovesTheStop` | scripts/backtest/replay.py:279-282 | signal at 100, fill at 101: the ledger stops at 95, the live strategy at 95.95 |
| `LedgerFacts.LedgerMatchesLegacyTagIff` | freqtrade/user_data/strategies/ExternalSignalStrategy.py:145-195 | for a legacy price tag the two agree iff the price is not below the floor or the trail leads |
| `LedgerFacts.RejectedDistanceMatchesIff` | freqtrade/user_data/strategies/ExternalSignalStrategy.py:145-195 | a distance outside the accepted range leaves the live stop static, which is the ledger's iff the trail is not armed and the ledger's stop is not above it |
| `LedgerFacts.EntrySizesBase` | scripts/backtest/ledger.py:301-316 | a funded entry holds the base amount its costs leave, for as long as it is open |
| `LedgerFacts.ProfitableIff` | scripts/backtest/ledger.py:166-185 | an exit is profitable iff its price covers the costs of both sides |
| `LedgerFacts.UngappedTrailFillsAboveEntry` | scripts/backtest/ledger.py:222-250 | a trailing exit without a gap fills at least 0.47% above entry, whatever the costs |
| `LedgerFacts.UngappedTrailWins` | scripts/backtest/ledger.py:222-250 | so a funded entry wins when costs are at most 0.23% a side |
| `LossClusters.CountConsecutiveLosses` | services/risk_engine/app/account_state.py:14-58 | the loss count is the least number of windows of the cluster length that cover the losing streak |
| `LossClusters.StreakExtent` | services/risk_engine/app/account_state.py:14-45 | the streak is the head of the list that lost after the reset boundary, up to the first position that did not |
| `LossClusters.ClustersAreMinimumCover` | services/risk_engine/app/account_state.py:46-55 | the greedy walk meets the minimum interval cover |
| `LossClusters.CountLaws` | services/risk_engine/app/account_state.py:46-55 | the count is at most the raw losses, falls as the window grows, and rises by 0 or 1 per loss |
| `LossClusters.ZeroWindowCountsInstants` | services/risk_engine/app/account_state.py:46-55 | a zero window counts distinct close times, so it counts losses iff none share one |
| `LossClusters.UnknownTimeSplits` | services/risk_engine/app/account_state.py:46-55 | a loss without a close time is its own event and splits its neighbours |
| `Performance.MaximumDrawdown` | tools/historical_replay/metrics.py:7-14 | the one-pass loop gives the worst pair of a non-negative curve, at most 1 |
| `Performance.EquityCurve` | services/common/performance.py:108-116 | running equity of the trades, the earlier close first, each point the one before plus the trade's P&L |
| `Performance.ComputeMaxDrawdownPct` | services/common/performance.py:119-139 | the running-peak drawdown of that curve, unknown without trades or capital |
| `Performance.MaxDrawdownPct` | scripts/backtest/replay.py:139-148 | the second implementation computes the same figure on non-empty lists with positive start |
| `Performance.ComputeAvgDrawdownPct` | services/common/performance.py:142-158 | the mean decline of the points strictly below an earlier one |
| `Performance.OnePassIsWorstPair` | services/common/performance.py:119-139 | running-peak drawdown is the maximum decline over all ordered pairs, on a non-negative curve |
| `Performance.NegativeCurveMissesWorstPair` | services/common/performance.py:119-139 | a curve that goes below zero where the one pass misses the worst pair |
| `Performance.AtMostOneIff` | services/common/performance.py:119-139 | the drawdown is at most 100% iff equity never goes negative |
| `Performance.AverageWithinWorst` | services/common/performance.py:142-158 | average drawdown never exceeds maximum drawdown |
| `Performance.OrderForgottenIff` | services/common/performance.py:108-116 | every input order of the same trades gives the same curve iff trades that close together have equal P&L |
| `Performance.TiesMakeOrderMatter` | services/common/performance.py:108-116 | two orders of the same trades whose drawdowns are 50% and 100% |
| `Breakdowns.Cohorts` | services/common/performance.py:291-312 | one cohort per occurring label with exactly its trades in order, the larger first and equal ones by name, the catch-all last with the unlabelled |
| `Breakdowns.CohortsAddUp` | services/common/performance.py:291-340 | every per-trade sum adds up across the cohorts of any dimension |
| `Breakdowns.FiguresAddUp` | services/common/performance.py:54-106 | counts, wins, losses, P&L, fees and total R of the cohorts add up to the parent's |
| `Breakdowns.FiguresCount` | services/common/performance.py:54-106 | wins and losses count the trades above and below zero, tracked trades those with a known R; unknown fees and R add nothing |
| `Breakdowns.CohortsPartitionTrades` | services/common/performance.py:291-340 | every trade occurs across the cohorts as often as in the parent |
| `Breakdowns.ExpectancyIsWeightedMean` | services/common/performance.py:80-89 | parent expectancy is the R-count-weighted mean of the cohorts', unknown iff none tracks R |
| `OrderFlow.Session.FindOrder` | services/admin_api/app/routers/webhooks.py:51-86 | the newest order carrying the trade, else the newest waiting one, which then learns it |
| `OrderFlow.FoundRow` | services/admin_api/app/routers/webhooks.py:51-86 | the order found is of the pair and side, the newest of the trade, or when there is none the newest submitted one without a trade |
| `OrderFlow.OpenTradeIsOwned` | services/admin_api/app/routers/webhooks.py:216-233 | a synthetic exit is anchored to an open position on the pair entered by a BUY order of the reported trade |
| `OrderFlow.Session.HandleEntryFill` | services/admin_api/app/routers/webhooks.py:99-155 | one filled order, one new position, two events; entries stay unique iff the order had no position yet |
| `OrderFlow.Session.HandleExitFill` | services/admin_api/app/routers/webhooks.py:198-321 | a complete fill of a held trade always closes a position by the SELL order it names or creates: the one linked to that order, else any open one on the pair; nothing else changes |
| `OrderFlow.FillClosesItsTradeIff` | services/admin_api/app/routers/webhooks.py:249-262 | whichever position a fill picks is the reported trade's own iff the order is linked to one of that trade or, linked to none, only that trade is open on the pair |
| `OrderExamples.LateFillClosesAnotherTrade` | services/admin_api/app/routers/webhooks.py:249-262 | a run in which the late exit fill of one trade closes the position of another |
| `OrderFlow.Session.MarkCancelled` | services/admin_api/app/routers/webhooks.py:332-348 | only the matched order's status and trade change, even if it was filled |
| `OrderFlow.Session.SubmitEntryOrder` | services/risk_engine/app/main.py:326-386 | the order is on record, submitted or failed, with its event |
| `OrderFlow.Session.SubmitExitOrder` | services/risk_engine/app/main.py:389-462 | an open position with a known trade gets a SELL order of that trade; it is linked iff the exchange confirmed the trade and took the exit; a failed SELL keeps its trade id |
| `Reconciliation.ReconcileSubmittedOrders` | services/risk_engine/app/reconciliation.py:18-84 | both in-place loops, rows in any order, meet the order-free pass: every submitted order of age at least the limit is filled as the exchange confirms it or its trace is alerted, no other row is touched, and the count is of what was filled and closed |
| `ReconcileOutcome.PassReconciles` | services/risk_engine/app/reconciliation.py:18-178 | the outcome of a pass for each order, each position and each new position, from ages, answers and the tables before it |
| `ReconcileOutcome.PassCounts` | services/risk_engine/app/reconciliation.py:18-178 | a pass counts the overdue orders confirmed and the open positions whose trade the exchange closed |
| `Reconciliation.ReconcileOpenEntry` | services/risk_engine/app/reconciliation.py:182-237 | filled iff confirmed; a position appears only if the entry had none; else one alert |
| `Reconciliation.ReconcileClosedExit` | services/risk_engine/app/reconciliation.py:240-291 | closed iff the figures are there and a position points at the order; else one alert |
| `Reconciliation.CloseRemotely` | services/risk_engine/app/reconciliation.py:132-178 | a synthetic filled SELL order and the position closed by it at one price |
| `Reconciliation.RaiseAlert` | services/risk_engine/app/reconciliation.py:294-311 | one alert per trace, ever |
| `ReconcileLaws.SecondPassDoesNothing` | services/risk_engine/app/reconciliation.py:18-178 | with fixed answers and clock a second pass reconciles 0 rows and changes no order, position or event |
| `ReconcileLaws.RowOrderIsInvisible` | services/risk_engine/app/reconciliation.py:31-178 | any two row orders give the same count, figures, new positions, alerts and event count, up to fresh ids |
| `OrderRuns.Serve` | services/admin_api/app/routers/webhooks.py:25-48 | over any mix of submissions, webhooks and passes a closed position stays closed by a SELL order of its symbol at its exit price, with its entry unchanged, and entries stay unique iff no entry fill matched an order that had a position |
| `OrderRuns.ClosedForGood` | services/admin_api/app/routers/webhooks.py:264-277 | what such a run may not undo about a closed position |
| `DeliveryFacts.ReachableInvariants` | services/scheduler/app/jobs.py:56-237 | every reachable state of schedulers, keys, stream and consumers keeps the protocol invariant |
| `DeliveryLaws.PublishedIsCommitted` | services/scheduler/app/jobs.py:225-234 | every id on the stream names a committed row, so a consumer never misses its signal |
| `DeliveryLaws.PublishedOnce` | services/scheduler/app/jobs.py:225-234 | no id is put on the stream twice |
| `DeliveryAudit.SignalsAreOfClosedCandles` | services/scheduler/app/jobs.py:102-121 | a signal's candle had closed when it was claimed, and not longer ago than a period and the claim's lag |
| `DeliveryAudit.LockOutlivesCrash` | services/scheduler/app/jobs.py:75-92 | a started cycle shuts its pair for five minutes even if it crashes; one that leaves opens it at once |
| `DeliveryAudit.AcknowledgedIsDecided` | services/risk_engine/app/main.py:478-509 | every acknowledged message has a decision on record |
| `DeliveryAudit.DeathKeepsMessage` | services/risk_engine/app/main.py:478-532 | a consumer that dies leaves its message unacknowledged and its key in place; another gets it iff messages are redelivered |
| `DeliveryLaws.OneRowPerCandleIff` | services/scheduler/app/jobs.py:75-121 | at most one row per pair and candle in every run iff a claim, by its own bound or its cycle's, trails its fetch by at most one period, whatever the lock does |
| `DeliveryLaws.LateClaimRepeatsRow` | services/scheduler/app/jobs.py:102-121 | the run that makes a second row when it does not |
| `DeliveryLaws.LockExcludesIff` | services/scheduler/app/jobs.py:75-89 | no two cycles of one pair ever coexist iff every cycle is over before its lock expires |
| `DeliveryLaws.ExpiredLockAdmitsTwoCycles` | services/common/redis_keys.py:5 | the run with two cycles of one pair when one is not |
| `DeliveryFacts.ApprovalNeeds` | services/risk_engine/app/exit_evaluator.py:47-60 | either evaluator approves only a first decision on a fresh signal |
| `DeliveryLaws.OncePerSignalIff` | services/risk_engine/app/main.py:67-106 | at most one approval, submission and approved decision per signal in every run, key expiry included, iff messages are not redelivered or the accepted age is below the key's lifetime |
| `DeliveryLaws.ExpiredKeyRepeatsSubmission` | services/common/redis_keys.py:6 | the run that submits a signal twice when a redelivery outlives the key |
| `DeliveryLaws.OneSubmissionPerCandle` | services/risk_engine/app/main.py:205-210 | end to end, a candle leads to at most one submission |
| `DeliveryLaws.RecordedEntriesWereSent` | services/risk_engine/app/main.py:205-212 | every approved entry on record was sent to the exchange |
| `DeliveryLaws.SubmissionsRecordedIff` | services/risk_engine/app/main.py:205-212 | once no consumer is at work every submission's approval is on record iff none died between its request and its commit |
| `DeliveryLaws.SentWithoutDecision` | services/risk_engine/app/main.py:478-532 | without redelivery such a death leaves a sent BUY with no decision that no consumer will take up again |
| `DeliveryLaws.SentButRecordedAsRejected` | services/risk_engine/app/main.py:478-509 | with redelivery its only decision on record is a rejection |
| `Semantic.Select` | services/llm_service/app/strategies/selector.py:30-93 | the first regime whose test passes leads, the rest are the alternatives |
| `SemanticLaws.RegimeOfRequest` | services/llm_service/app/strategies/selector.py:30-93 | the regimes of a request in numbers: averages 1.5% apart with the price beyond them or not, a histogram of 15% of ATR on high volume, else a range |
| `Semantic.PrefilterIsExact` | services/llm_service/app/validators/semantic.py:288-327 | the model is skipped iff every answer would become HOLD |
| `Semantic.ValidationOnlySuppresses` | services/llm_service/app/validators/semantic.py:18-249 | outside the hard loss-cut the validated action is the model's own or HOLD, and a change is reported iff made |
| `SemanticLaws.SellKeptIff` | services/llm_service/app/validators/semantic.py:79-285 | outside the hard cut a SELL is kept iff a position is open, its known P&L is beyond a margin and two facts of different kinds hold; its confidence grows from 0.65 by 0.05 a fact to 0.80 |
| `SemanticLaws.BuyKeptIff` | services/llm_service/app/validators/semantic.py:79-285 | a BUY is kept iff no position is open, three facts hold with one of trend and one of momentum, and the price has not already followed a wide gap |
| `SemanticLaws.HardCutSells` | services/llm_service/app/validators/semantic.py:84-108 | at the hard cut the position is sold at 0.80 whatever the model says; short of it a HOLD stays as it is |
| `Semantic.EntryConfirmations` | services/llm_service/app/context/builder.py:68-97 | exactly the entry facts that hold, each once |
| `Semantic.ExitConfirmations` | services/llm_service/app/context/builder.py:100-133 | exactly the exit facts that hold, each once |
| `SemanticLaws.RisesStepwise` | services/llm_service/app/context/builder.py:84-89 | higher highs and lows mean both rise at each of the last two candles, lower ones that both fall |
| `Semantic.BuildContext` | services/llm_service/app/context/builder.py:22-66 | the context carries the trend, momentum and volume facts of the request and its confirmations |
| `Semantic.SurvivingBuyIsFresh` | services/llm_service/app/validators/semantic.py:79-249 | a surviving BUY has three different facts, one of trend and one of momentum, and is no chase in an established trend |
| `Semantic.ConfirmationsNeverContradict` | services/llm_service/app/context/builder.py:68-133 | no fact and its mirror image are confirmed together |
| `Pipeline.Validate` | services/llm_service/app/validators/response_validator.py:45-91 | accepted iff a text within the repair budget parses, and then with the rubric's output |
| `Pipeline.ValidationIsSemantic` | services/llm_service/app/validators/response_validator.py:45-91 | validation accepts iff a text within the budget parses, and yields the rubric's verdict on what that text parsed to |
| `Pipeline.PrefilterNeverChangesTheAction` | services/llm_service/app/services/pipeline.py:66-152 | for every provider, parser and budget the emitted action is the same with the pre-filter on or off |
| `Pipeline.TradesComeFromValidatedAnswers` | services/llm_service/app/services/pipeline.py:73-152 | every BUY or SELL is the rubric's verdict on a text within the repair budget that parsed, after an answered call that could matter |
| `Pipeline.UnderstoodAnswersAreSignalled` | services/llm_service/app/services/pipeline.py:73-152 | a model that is asked, answers and is understood within the budget gets exactly that verdict emitted |
| `Pipeline.EverythingElseHolds` | services/llm_service/app/services/pipeline.py:66-152 | a skipped, failed or never understood call is a HOLD of confidence zero, and only a skipped one is marked |
| `Pipeline.RepairsAreNumbered` | services/llm_service/app/services/pipeline.py:104-125 | each repair is the next numbered call and is given the malformed text and its reason |
| `Pipeline.PrefilterNeverChangesTheVerdict` | services/risk_engine/app/evaluator.py:35-100 | across both services the pre-filter changes no decision, reason or switch trip |
| `Pipeline.KillSwitchSparesExits` | services/risk_engine/app/main.py:88-107 | across both services a SELL is judged as an exit, which the kill switch never stops, anything else as an entry, which it always refuses |

## Left out

- Decimal rounding to 28 digits, column rounding and float formatting: exact reals.
- The web UI, Telegram, e-mail, chart, wiki and report text: no trading state.
- HTTP, exchange, database and Redis clients: oracles, maps with expiry times and atomic set-if-absent; all processes share one clock.
- Indicator arithmetic, prompts, model providers and response parsing: arbitrary inputs and functions.
- The exit client's repeated POSTs and the emergency exit after a failed forceenter (services/risk_engine/app/freqtrade_client.py:42-89): a submission is one call of the client, however many requests that makes.
- What the exchange bot does with a returned stop: `stoploss_from_absolute` is read as its absolute rate and the strategy's static stop as 8% below the fill.
- Reading balances and the expectancy cohort: inputs of the evaluator; `load_account_state` beyond the loss count is not modelled.
- Storing, resetting and publishing the kill switch in the live services: an input of the evaluator there; its latch is modelled in the replay and the ledger.
- The LLM failure streak and its operator alerts: telemetry that decides nothing.
- `market_regime`, `trade_score`, `r_multiple`, `fees_usdt`, `pnl_pct`, `dry_run` and event payload text on database rows: copied values no other step reads here; event kinds and trace ids are kept.
- Win rate, profit factor and drawdowns inside each cohort report: quotients of sums `Breakdowns.CohortsAddUp` covers, and the drawdowns of `Performance`.
- DeliveryModel.Do: the scheduler and consumer processes are steps of one transition system, not methods, so their local variables appear only as the stage a process has reached.
- Reconciliation.ReconcileSubmittedOrders: commits once at the end; a pass that is interrupted before that leaves no trace and is not modelled. The wall-clock default for a missing open date is the pass's own `now`.
- ReconcileLaws.RowOrderIsInvisible: says which traces are alerted, not which of several reasons the one alert carries.
- BacktestLedger.Ledger.ApplyEntry: takes the pair from the signal; the caller always passes the same one.
- Auth, configuration storage, migrations, read-only routes and score constants: range and lookup facts only.

# BullDogAlpha: verified models of the trading core

BullDogAlpha is a trading platform of Go services and a Python backtest engine. This project models
its parts that hold state or money and proves what they keep over whole runs.

- **Order management** (`OrderLog`, `OrderMachine`, `OrderTheorems`, `OrderLaws`, `OrderFailures`,
  `Ems`). Orders move through a table of states; every accepted event is appended to a write-ahead
  log that a restart replays; a failed append puts the service into a degraded, read-only mode.
  `OrderMachine` cuts every call at its append, so that other callers, crashes and restarts may come
  between its two halves. `OrderTheorems` holds for every such interleaving, with no bound on callers,
  orders or restarts. `Ems` has the classes of the program; its methods are proved equal to
  compositions of those steps.
- **Backtest engine** (`Portfolio`, `PortfolioLaws`, `Book`, `BookLaws`, `Backtest`, `TradeOrigins`,
  `Ledger`, `BacktestDriver`). Average-cost accounting of long and short positions, order matching
  against bars, and the chronological loop. A strategy is an arbitrary function from its own state,
  the context and the bars to a new state and a list of orders to submit or cancel.
- **Bar aggregation** (`BarAggregator`, `SymbolAggregator`). A stream of ticks becomes one-minute
  bars, with a watermark for late ticks; it is proved against a batch description of the input.
- **Barrier** (`Barrier`, `BarrierTheorems`, `Orchestrator`). Bars of one time are gathered for each
  strategy; missing symbols are filled forward when time moves on.
- **Exchange calendar** (`Gregorian`, `Easter`, `Holidays`). Easter and the market holidays against
  a day count built from the leap-year rule, and against the epact rule for the full moon.
- **Drawdown and corporate actions** (`Drawdown`, `Adjuster`). The one-pass scans against their
  definitions over all pairs and all later bars.
- **Circuit breaker** (`CircuitBreaker`, `RiskNode`) and **learning environment** (`RlEnv`).

Each component has two layers. Datatypes and functions describe one step and its run; theorems are
stated about these. Classes and methods follow the program's control flow, update its fields in
place, and are proved to take exactly those steps. Prices and money are reals, quantities are
integers; the fill counter of an order wraps like an `int32`.

Some expected properties are false of the code. They are stated with their exact condition and with
an input on which they fail:

- An order can be FILLED below its total quantity: exactly after a FILLED report that brings too
  little (`FilledIsFullIff`, `CarefulRunsAreFull`, `ShortReportIsAccepted`), or, after a crash, when
  one of its fills never reached the log (`RecoveredFilledIsFullIff`, `LostFillComesBackShort`).
- `cmd/ems/TESTING.md` promises the exact state after a replay. An order comes back as it was if and
  only if none of its fills was lost and its last record, or one with the same state and correlation
  id, was logged (`RestartIsExactIff`, `ReplayIsExactIff`). A fill that was not logged is missing from
  the recovered quantity; a CANCELED record that was not logged leaves the order PENDING_CANCEL, and
  a fill of it is accepted again (`LostCancelComesBack`).
- The over-fill check misses an over-fill exactly when the sum wraps (`OverFillCaughtIff`,
  `WrappedReportIsAccepted`).
- A PENDING or SUBMITTED record can still be logged in degraded mode, exactly when it was already
  in flight when the mode began (`DegradedIsReadOnlyIff`, `PauseDuringSubmit`).
- The executed price of a limit order can be worse than the limit: exactly when there is slippage and
  the open is not inside the limit by as much (`ExecutedPriceRespectsLimitIff`,
  `ExecutedPastTheLimit`). The price before slippage always respects it (`LimitIsRespected`).
- The early close named Black Friday is the fourth Friday of November, which is the day after
  Thanksgiving unless November starts on a Friday (`BlackFridayFollowsThanksgivingIff`,
  `BlackFriday2024`).
- A failed half-open probe reopens the breaker exactly when at least two failures were reported since
  the last success (`ProbeReopensIff`); a late success of a slow call can come in between
  (`LateSuccessDisarmsProbe`).
- The times of the on_bar calls of a strategy do not always increase. They do exactly as long as no
  bar of the present time is served after all symbols of that time have been received
  (`CallsInOrderIff`): a repeated bar is one, and so is the completing bar of a strategy that is
  registered twice. On distinct bars a strategy is always called in order if and only if it is
  registered once (`InOrderIffRegisteredOnce`); otherwise a call may even have a flat bar in place of
  one that was delivered (`DeliveredBarIsReplaced`).
- A drawdown report fails with a division by zero exactly when the series falls below a running
  maximum of zero (`ComputeDrawdownDetails`, `ZeroStartIsUndefined`).

`dafny verify dfyconfig.toml` checks the whole project.

## Model

| member | source | states |
|---|---|---|
| OrderLog.ReplayCountsFills | cmd/ems/state/state_machine.go:149-185 | replaying any disciplined log gives each order a CumQty equal to the sum of its fill deltas, although the counter wraps like an int32 |
| OrderLog.TerminalIsLast | cmd/ems/state/state_machine.go:195-209 | no event follows a terminal event of the same order, and only the first event of an order is PENDING |
| OrderLog.DisciplinedOrders | cmd/ems/state/state_machine.go:116-125 | every replayed order has 0 <= CumQty <= TotalQty, and reaching the total means FILLED |
| OrderLog.LogLags | cmd/ems/state/state_machine.go:127-142 | if only records that open no risk failed to be logged, the log alone is a disciplined history of the same orders, each with no more filled than live |
| OrderLog.LostFillsAreMissing | cmd/ems/state/state_machine.go:136-142 | fills of the log plus fills whose append failed are the fills accepted, per order |
| OrderLog.LogIsSubsequence | cmd/ems/state/wal.go:48-96 | per order, the log is a subsequence of the accepted events |
| OrderLog.LogKeepsFirstRecord | cmd/ems/state/state_machine.go:71-86 | per order, the log starts with the same PENDING record as the accepted history, and has records for the same orders |
| OrderLog.RecoveredExactlyIff | cmd/ems/state/state_machine.go:149-185 | an order is recovered exactly if and only if none of its fills was lost and its last logged record has the state and correlation id of its last accepted one |
| OrderLog.RecoveredTerminalIff | cmd/ems/state/state_machine.go:127-185 | an order is recovered terminal if and only if a terminal record of it was logged |
| OrderMachine.LoneCancel | cmd/ems/main.go:64-106 | a cancel that runs alone passes both transitions if and only if the order is SUBMITTED or PARTIALLY_FILLED, and otherwise not even the first |
| OrderMachine.TransitionIsTwoSteps | cmd/ems/state/state_machine.go:96-147 | a transition run alone is the check-and-book half followed by the append half |
| OrderMachine.OpenIsTwoSteps | cmd/ems/state/state_machine.go:49-86 | opening an order alone is the store followed by its append; a failed append leaves the registry as before |
| OrderMachine.SubmitTracks | cmd/ems/state/state_machine.go:49-69 | a submit that has stored its order keeps the live orders in step with the accepted events |
| OrderMachine.BeginTracks | cmd/ems/state/state_machine.go:96-125 | an accepted transition books its fill without losing step with the accepted events |
| OrderMachine.EndTracks | cmd/ems/state/state_machine.go:127-146 | an append, failed or not, either commits an event that the history admits or leaves the orders as accepted |
| OrderMachine.StepKeeps | cmd/ems/state/state_machine.go:37-185 | every step (submit, transition, append success or failure, pause, crash, restart) keeps the log, the accepted history and the live orders in step |
| OrderMachine.Reachable | cmd/ems/state/state_machine.go:37-185 | the invariant holds after every run of steps from the empty log |
| OrderTheorems.ReplayIsExact | cmd/ems/state/state_machine.go:149-185 | while no accepted record failed to be logged, replaying the log gives exactly the live orders: symbol, price, quantities, state and correlation id |
| OrderTheorems.RestartRecovers | cmd/ems/state/state_machine.go:149-185 | after a crash and restart at any point the same orders are back, none ahead of the live one, each with exactly its lost fills missing from CumQty |
| OrderTheorems.RestartIsExactIff | cmd/ems/state/state_machine.go:127-185 | after a crash and restart at any point, an order is what it was if and only if it lost no fill and its last record, or one like it, was logged; it is terminal if and only if a terminal record was logged |
| OrderTheorems.ReplayIsExactIff | cmd/ems/state/state_machine.go:149-185 | in every reachable state, the log replays to the live orders if and only if that condition holds of every order |
| OrderTheorems.LogIsFaithful | cmd/ems/state/wal.go:48-96 | after any run, per order, the log is a subsequence of the accepted events from their PENDING record on, and covers exactly the live orders |
| OrderTheorems.FillsAreConserved | cmd/ems/state/state_machine.go:116-125 | in every reachable state CumQty is the sum of accepted fill deltas (and of one in flight), stays within TotalQty, and reaching it forces FILLED |
| OrderTheorems.LogIsDisciplined | cmd/ems/state/state_machine.go:195-209 | in every reachable log nothing follows an order's terminal record and no order has two PENDING records |
| OrderTheorems.DegradedRun | cmd/ems/state/state_machine.go:112-114 | once degraded with nothing risky in flight, no run appends a PENDING or SUBMITTED record or adds an order until the mode is lifted |
| OrderTheorems.DegradedIsReadOnlyIff | cmd/ems/state/state_machine.go:55-114 | a degraded state is read-only for good if and only if no PENDING or SUBMITTED append is in flight in it |
| OrderTheorems.PauseDuringSubmit | cmd/ems/main.go:27-62 | the exception is reachable: a pause between a submit's check and its append |
| OrderTheorems.CancelRace | cmd/ems/main.go:64-114 | before a restart: from an accepted cancel on, under any interference, the order only ends CANCELED or FILLED, and a terminal order never changes (RestartIsExactIff says what a restart brings back) |
| OrderTheorems.SecondHalfOfCancel | cmd/ems/main.go:98-106 | the second transition of a cancel succeeds exactly if the order is still PENDING_CANCEL and nobody is appending for it; otherwise it is terminal, or a CANCELED or FILLED record of it is being appended |
| OrderTheorems.FilledIsFullIff | cmd/ems/state/state_machine.go:116-125 | an accepted report leaves FILLED meaning full if and only if it is not a FILLED report short of the missing quantity |
| OrderTheorems.CarefulRunsAreFull | cmd/ems/state/state_machine.go:96-185 | over every run without such a report and without a restart after a lost record, every FILLED order is full |
| OrderTheorems.RecoveredFilledIsFullIff | cmd/ems/state/state_machine.go:149-185 | an order recovered as FILLED that was full is full again if and only if none of its fills was lost |
| OrderTheorems.OverFillCaughtIff | cmd/ems/state/state_machine.go:117-121 | the over-fill panic catches an over-fill if and only if the sum does not wrap around int32 |
| OrderLaws.SubmitStoresTerms | cmd/ems/state/state_machine.go:49-86 | in every reachable state a logged submit stores the symbol, price and correlation id of the request and the whole part of its quantity, and a replay of the log brings back the same order |
| OrderLaws.TermsStand | cmd/ems/state/state_machine.go:96-147 | no step changes the symbol, price or total of an order in the registry |
| OrderLaws.TermsComeBack | cmd/ems/state/state_machine.go:149-185 | nor does a crash and restart at any point |
| OrderLaws.RecordsFollowEdges | cmd/ems/state/state_machine.go:195-209 | in every reachable state an append accepts only the PENDING record of a new order, or a record whose state may follow the order's: CANCELED only PENDING_CANCEL, SUBMITTED only PENDING, and so on |
| OrderLaws.AcceptedIff | cmd/ems/state/state_machine.go:96-125 | a report is accepted if and only if the order is known, its state may be followed by the target, degraded mode does not forbid the target, and the fill fits the total |
| OrderLaws.AcceptedReportLeaves | cmd/ems/state/state_machine.go:115-147 | an accepted report adds its delta, ends in its target or in FILLED exactly on reaching the total, takes its correlation id, logs that record, and touches no other order; a failed append degrades, and undoes only a SUBMITTED |
| OrderLaws.OverFillCrashes | cmd/ems/state/state_machine.go:119-121 | an over-fill that does not wrap ends the process and logs nothing |
| OrderLaws.FailedAppendDegrades | cmd/ems/state/state_machine.go:81-85 | after a failed append no run takes a new order until the mode is lifted or the process restarts |
| OrderFailures.ShortReportIsAccepted | cmd/ems/state/state_machine.go:116-125 | a FILLED report of 60 on an order of 100 is accepted and leaves it FILLED with 60 |
| OrderFailures.WrappedReportIsAccepted | cmd/ems/state/state_machine.go:117-121 | with 60 of 100 filled, a report of the greatest int32 is accepted and makes CumQty negative |
| OrderFailures.LostFillComesBackShort | cmd/ems/state/state_machine.go:127-142 | for every order and every part of it there is a run from the empty log that ends full, and after a crash and restart the order is FILLED and short by that part |
| OrderFailures.LostCancelComesBack | cmd/ems/main.go:98-113 | there is a run that loses no fill and answers a cancel with CANCELED, after whose crash and restart the order is PENDING_CANCEL and accepts a fill of its whole quantity |
| Ems.FileWal.Append | cmd/ems/state/wal.go:48-67 | a successful append adds exactly the record at the end, a failed one adds nothing |
| Ems.StateMachine.constructor | cmd/ems/state/state_machine.go:31-35 | a new machine has no orders, is not degraded and keeps the log as it is |
| Ems.StateMachine.SetDegraded | cmd/ems/state/state_machine.go:37-43 | only the mode changes |
| Ems.StateMachine.GetOrder | cmd/ems/state/state_machine.go:187-193 | finds an order if and only if it is live |
| Ems.StateMachine.SubmitOrder | cmd/ems/state/state_machine.go:49-94 | a known id changes nothing; a stored order has the terms of the request with the whole part of its quantity, and is SUBMITTED with both records logged; a refused one leaves exactly the state of the steps that ran, in each of the failure cases |
| Ems.StateMachine.TransitionState | cmd/ems/state/state_machine.go:96-147 | the result is the verdict of the rules, and the new state, log and mode are those of the transition step, for every target, delta and append outcome |
| Ems.StateMachine.RecoverFromWal | cmd/ems/state/state_machine.go:149-185 | the in-place loop computes the replay on which the theorems rest; an unreadable log changes nothing |
| Ems.EmsServer.ForcePause | cmd/ems/main.go:27-33 | a pause puts the machine into degraded mode and changes nothing else |
| Ems.EmsServer.CancelOrder | cmd/ems/main.go:64-114 | alone, a cancel succeeds if and only if the order is SUBMITTED or PARTIALLY_FILLED, whatever the appends do; it then passes both transitions; any other order is untouched |
| Ems.EmsServer.SubmitOrder | cmd/ems/main.go:35-62 | a retry of a known id answers its present state and changes nothing; SUBMITTED is answered if and only if the order is new, the mode is normal and both appends succeed, and the order then has the terms of the request |
| Portfolio.ApplyConsistent | src/alpha_engine/strategies/base.py:160-251 | positions and cost basis always have the same symbols, every held symbol is marked, no position is zero |
| Portfolio.ApplyPosition | src/alpha_engine/strategies/base.py:187-244 | a fill moves the position of its symbol by its signed quantity and no other position, in all branches |
| Portfolio.ApplyCash | src/alpha_engine/strategies/base.py:193-221 | cash moves by the signed notional and the commission |
| Portfolio.ApplyConservesBook | src/alpha_engine/strategies/base.py:187-251 | a fill moves cash plus positions at cost by the profit realized less the commission of an opening fill, for extensions, closes, partial closes and flips |
| Portfolio.BookConservation | src/alpha_engine/strategies/base.py:160-251 | over every sequence of fills and marks, cash plus positions at cost is the initial cash plus realized profit less commissions of opening fills |
| Portfolio.NavDecomposition | src/alpha_engine/strategies/base.py:138-144 | NAV is the initial cash plus realized plus unrealized profit less those commissions |
| Portfolio.GainIsMove | src/alpha_engine/strategies/base.py:138-144 | the unrealized profit of a position is its size times the move from its cost to its last price |
| Portfolio.PositionIsSum | src/alpha_engine/strategies/base.py:187-251 | after any sequence of fills the position is the signed sum of their quantities |
| Portfolio.CashIsSum | src/alpha_engine/strategies/base.py:187-251 | after any sequence of fills cash is the initial cash less signed notionals and commissions |
| Portfolio.CostBasisBetweenOpenPrices | src/alpha_engine/strategies/base.py:195-241 | the cost basis lies between the least and the greatest price of the opening fills since the position was last flat or flipped |
| Portfolio.GrossBoundsNet | src/alpha_engine/strategies/base.py:138-151 | with non-negative marks gross exposure bounds the net position value both ways |
| PortfolioLaws.FillMovesShares | src/alpha_engine/strategies/base.py:193-244 | a buy adds its quantity to the position, a sale takes it off, any other fill nothing, and no other position moves |
| PortfolioLaws.FillMovesCash | src/alpha_engine/strategies/base.py:193-221 | a buy pays quantity times price and the commission, a sale is paid quantity times price less the commission |
| PortfolioLaws.FillRealizes | src/alpha_engine/strategies/base.py:201-241 | a fill realizes nothing unless it closes shares, then their move away from the cost less the commission; a partial close keeps the cost, a flip restarts it at the fill price, a full close removes it |
| PortfolioLaws.FillAverages | src/alpha_engine/strategies/base.py:195-226 | opening or extending makes the cost the average over all shares |
| PortfolioLaws.MarkIsLastPrice | src/alpha_engine/strategies/base.py:134-183 | after any run the mark of a symbol is the price of its last fill with positive quantity or price update, and a symbol without one has no mark |
| PortfolioLaws.FillMovesNav | src/alpha_engine/strategies/base.py:138-221 | a fill moves NAV by the position held before times the move from the old mark to the executed price, less the commission of a trade |
| PortfolioLaws.MarkMovesNav | src/alpha_engine/strategies/base.py:134-144 | a price update moves NAV by the position times the move of its mark |
| PortfolioLaws.GrossIsLongPlusShort | src/alpha_engine/strategies/base.py:138-151 | gross exposure is what the long positions are worth plus what the short ones owe, and their difference is the net position value |
| PortfolioLaws.CommissionsAreSum | src/alpha_engine/strategies/base.py:180-185 | the total of commissions is the sum over all fills with positive quantity |
| Portfolio.SubPortfolio.constructor | src/alpha_engine/strategies/base.py:125-132 | a new portfolio holds its cash and nothing else |
| Portfolio.SubPortfolio.UpdatePrice | src/alpha_engine/strategies/base.py:134-136 | marks one symbol |
| Portfolio.SubPortfolio.GetNav | src/alpha_engine/strategies/base.py:138-144 | the loop over positions computes the NAV, whatever order it visits them in |
| Portfolio.SubPortfolio.GetGrossExposure | src/alpha_engine/strategies/base.py:146-151 | the loop over positions computes the gross exposure, whatever order it visits them in |
| Portfolio.SubPortfolio.ProcessBuy | src/alpha_engine/strategies/base.py:193-218 | the buy branches, case by case in place, agree with the one signed accounting rule |
| Portfolio.SubPortfolio.ProcessSell | src/alpha_engine/strategies/base.py:220-244 | the sell branches, case by case in place, agree with the same signed accounting rule |
| Portfolio.SubPortfolio.ProcessFill | src/alpha_engine/strategies/base.py:160-251 | the whole new state is that of the signed accounting rule, the result is the profit realized, and the final clean-up of zero positions never finds any |
| Book.LimitIsRespected | src/alpha_engine/backtest_driver.py:178-204 | on a consistent bar the base price lies within the bar and is no worse than the limit, and slippage only moves the price against the order |
| Book.MatchesAtDuePrice | src/alpha_engine/backtest_driver.py:178-195 | a market order matches at the close; a limit buy matches if and only if low <= limit, at the smaller of open and limit; a limit sell if and only if high >= limit, at the larger |
| Book.SlippageIs | src/alpha_engine/backtest_driver.py:46-50 | slippage is the fixed part, plus gamma times the power of quantity over volume exactly when both volume and gamma are positive, and never negative |
| Book.SlippageIsPaid | src/alpha_engine/backtest_driver.py:197-204 | a buy pays the base price and the slippage on it, any other order gets the base price less it |
| Book.ExecutedPriceRespectsLimitIff | src/alpha_engine/backtest_driver.py:181-204 | on a consistent bar, the executed price of a limit order that trades is no worse than the limit if and only if there is no slippage or the open moved by the slippage is within the limit |
| Book.ExecutedPastTheLimit | src/alpha_engine/backtest_driver.py:181-204 | a buy limited to 100 trades at 100.1 on a bar that opens at 101 and falls to 99, at 10 basis points |
| Book.CommissionIsCapped | src/alpha_engine/backtest_driver.py:62-68 | the commission is the larger of the schedule and the minimum, and is below either only when it is the set cap, which it never exceeds |
| Book.MatchKeeps | src/alpha_engine/backtest_driver.py:156-238 | matching a bar keeps the book: pending list, trade records and account in agreement |
| Book.ExecuteAllKeeps | src/alpha_engine/backtest_driver.py:123-154 | submitting and cancelling keep the book |
| BookLaws.BarTradesIff | src/alpha_engine/backtest_driver.py:156-238 | a bar fills exactly the pending orders of its symbol whose limit, if any, it reaches, and leaves every other order as it was |
| BookLaws.CancelCloses | src/alpha_engine/backtest_driver.py:148-154 | a cancel makes its order CANCELLED exactly if it is pending, and touches no other |
| BookLaws.OrdersAreRequests | src/alpha_engine/backtest_driver.py:123-146 | in every run order number k has the symbol, quantity, side, price and kind of the strategy's k-th submit and the time of its group, and there are no other orders |
| BookLaws.BarsAreLastRows | src/alpha_engine/backtest_driver.py:340-369 | the strategy is shown the last row of every symbol of the group, and the symbol is marked at its close |
| BookLaws.TimesAreGroups | src/alpha_engine/backtest_driver.py:245-249 | one time is recorded per group, that of the group |
| Backtest.GroupsFlatten | src/alpha_engine/backtest_driver.py:377-391 | grouping loses and reorders no row |
| Backtest.GroupsAreOfOneTime | src/alpha_engine/backtest_driver.py:377-391 | every group holds rows of its own timestamp only |
| Backtest.GroupsIncrease | src/alpha_engine/backtest_driver.py:377-391 | on sorted rows the group times strictly increase |
| Backtest.KnownGroupsComeFirst | src/alpha_engine/backtest_driver.py:377-391 | the groups of the rows known at a time are the first groups of all rows, and the others are later |
| Backtest.NoLookahead | src/alpha_engine/backtest_driver.py:337-391 | for every strategy, running on the rows up to T gives trade, NAV and timestamp histories that are prefixes of those of the full run, and everything beyond them is later than T |
| Backtest.SamePastSameHistory | src/alpha_engine/backtest_driver.py:337-391 | two data sets that agree up to T give the same histories up to T |
| Backtest.BookHoldsAfterRun | src/alpha_engine/backtest_driver.py:123-238 | after any run the pending list is exactly the PENDING orders in submission order, each FILLED order has one trade strictly later than its creation, and the trades account for cash, positions, realized profit and every cash and position figure recorded with a trade |
| Backtest.SettledOrdersStay | src/alpha_engine/backtest_driver.py:148-238 | FILLED and CANCELLED are final, and no order is lost or altered but in its status |
| TradeOrigins.TradesAreFair | src/alpha_engine/backtest_driver.py:156-238 | after any run every trade executed at the first row of its symbol, later than the order's creation, that reached the order's limit if it had one; its base price is the close of that row for a market order and the better of open and limit otherwise; the executed price is within the limit exactly when the slippage fits; and no row since its creation reached an order that is still pending |
| TradeOrigins.MatchOrigins | src/alpha_engine/backtest_driver.py:156-238 | one bar keeps both: trades have such origins, and what stays pending has matched nothing |
| TradeOrigins.KeptPassed | src/alpha_engine/backtest_driver.py:165-195 | the orders that stay pending are among those that the bar did not match, unchanged |
| BacktestDriver.BacktestContext.constructor | src/alpha_engine/backtest_driver.py:74-98 | the context starts with its capital, no orders and the capital as first NAV |
| BacktestDriver.BacktestContext.SubmitOrder | src/alpha_engine/backtest_driver.py:123-146 | takes the submit step of the book and answers the new id |
| BacktestDriver.BacktestContext.CancelOrder | src/alpha_engine/backtest_driver.py:148-154 | succeeds if and only if the order is PENDING, and takes the cancel step of the book |
| BacktestDriver.BacktestContext.BasePrice | src/alpha_engine/backtest_driver.py:178-195 | the branches decide whether the order trades and at which base price |
| BacktestDriver.BacktestContext.ProcessOrder | src/alpha_engine/backtest_driver.py:165-236 | one pass of the matching loop takes the step of the book, and says whether the order stays pending |
| BacktestDriver.BacktestContext.FillOrder | src/alpha_engine/backtest_driver.py:197-227 | portfolio, order and trade record are updated together |
| BacktestDriver.BacktestContext.ProcessFillsForBar | src/alpha_engine/backtest_driver.py:156-238 | the loop over pending orders matches a bar against the book |
| BacktestDriver.BacktestContext.RecordNav | src/alpha_engine/backtest_driver.py:245-249 | appends the NAV and the time |
| BacktestDriver.BacktestContext.MarkRows | src/alpha_engine/backtest_driver.py:340-342 | marks every row in order |
| BacktestDriver.BacktestContext.FillRows | src/alpha_engine/backtest_driver.py:344-355 | matches every row in order |
| BacktestDriver.BacktestContext.CollectBars | src/alpha_engine/backtest_driver.py:357-369 | keeps the last row of each symbol |
| BacktestDriver.BacktestContext.ProcessGroup | src/alpha_engine/backtest_driver.py:337-375 | marks, matches, shows and values in that order: one group step of the run |
| BacktestDriver.RunBacktest | src/alpha_engine/backtest_driver.py:377-391 | the streaming loop with its current group computes the run over all groups, the last one included |
| Ledger.RunAccounts | src/alpha_engine/backtest_driver.py:337-391 | the account of a run is that of its price marks and of exactly the fills in its trade records, in their order |
| Ledger.RecordedNav | src/alpha_engine/backtest_driver.py:245-249 | the NAV history has the capital and one value per group, each the NAV of the account after that group |
| Ledger.RecordedNavDecomposes | src/alpha_engine/backtest_driver.py:245-249 | every recorded NAV is the capital plus realized plus unrealized profit less the commissions of opening fills |
| BarAggregator.SummaryMeansSummarizes | cmd/bar_aggregator/main.go:219-248 | ticks of one window absorbed one by one give open first, high and low the extremes, volume the sum, close the last arrived of the latest |
| BarAggregator.StreamIsBatch | cmd/bar_aggregator/main.go:215-298 | at all times and for every window with a bar, the bar held or last published summarizes exactly the ticks accepted for that window |
| BarAggregator.LateAcceptedIff | cmd/bar_aggregator/main.go:268-297 | after any ticks, a late tick changes the aggregator if and only if it is at most 100 ms before the current window and previous.StartTime + 60000 = current.StartTime, which holds if and only if that window was ever published; the tick then belongs to it |
| BarAggregator.DiscardedIff | cmd/bar_aggregator/main.go:268-297 | a tick at most 100 ms behind the newest is discarded if and only if its window is past and was never published; the aggregator is then unchanged |
| BarAggregator.SizesAreConserved | cmd/bar_aggregator/main.go:215-298 | sizes fed in are the last published volumes of the closed windows, plus the current volume, plus the discarded sizes |
| BarAggregator.ChronologicalTakesAll | cmd/bar_aggregator/main.go:234-266 | for non-decreasing timestamps every tick is accepted |
| BarAggregator.ChronologicalIsGroupBy | cmd/bar_aggregator/main.go:215-298 | for non-decreasing timestamps the published bars and the current one are the input grouped by 60000 ms windows, in order, one bar per window |
| SymbolAggregator.ActiveBar.constructor | cmd/bar_aggregator/main.go:221-230 | a bar opened by a tick |
| SymbolAggregator.ActiveBar.Absorb | cmd/bar_aggregator/main.go:236-246 | the in-place update of a bar by a tick |
| SymbolAggregator.Aggregator.PublishBar | cmd/bar_aggregator/main.go:300-333 | sends the bar as it is now |
| SymbolAggregator.Aggregator.ProcessTick | cmd/bar_aggregator/main.go:215-298 | all four cases, with the two bars as distinct objects updated in place, take the step of the stream |
| SymbolAggregator.Aggregator.ProcessTicks | cmd/bar_aggregator/main.go:205-213 | feeding any ticks gives the run on which the theorems rest |
| BarrierTheorems.CallsInOrderIff | src/alpha_engine/engine.py:128-166 | for every subscription, every sequence of bars and every number of registrations, the times of the calls (and of the one due for what waits) strictly increase if and only if no bar of the present time is served after every symbol of that time has been received |
| BarrierTheorems.DistinctHasNoEcho | src/alpha_engine/engine.py:128-151 | a strategy registered once that gets distinct (symbol, time) bars is never served such a bar |
| BarrierTheorems.CallsAreDue | src/alpha_engine/engine.py:128-189 | then every on_bar call carries exactly the subscribed symbols, all at one time, each with its bar of that time or a zero-volume flat bar at the last received close (1.0 if none), also for a strategy registered after other bars |
| BarrierTheorems.TimelyBarsAreDelivered | src/alpha_engine/engine.py:137-151 | every bar not behind the clock on arrival, and not replaced by another of its symbol and time, is delivered in some call or still buffered, for any subscription, bars and number of registrations |
| BarrierTheorems.DeliveredOnce | src/alpha_engine/engine.py:137-166 | while the calls are in order, no bar is delivered twice, or both delivered and buffered |
| Barrier.CompleteIff | src/alpha_engine/engine.py:150-151 | comparing the two lengths decides whether every subscribed symbol is buffered, and never succeeds for a subscription that names a symbol twice |
| Barrier.RunOk | src/alpha_engine/engine.py:128-189 | the barrier invariant over every sequence of bars without echoes: the clock is the newest subscribed time, and the buffer is either open with the bars received for it or shut |
| BarrierTheorems.InOrderIffRegisteredOnce | src/alpha_engine/engine.py:121-166 | on distinct (symbol, time) bars a strategy is always called at strictly increasing times if and only if it is registered once |
| BarrierTheorems.DeliveredBarIsReplaced | src/alpha_engine/engine.py:137-189 | two symbols, registered twice, three bars: a second call of the same time has a flat bar at a newer close in place of a bar that was delivered |
| Barrier.FilledSnoc | src/alpha_engine/engine.py:173-187 | one more symbol is filled forward if and only if it is missing |
| Barrier.LastKnownIsLast | src/alpha_engine/engine.py:128-129 | the last known bar of a symbol is the last that arrived, or else that of the time before the registration |
| Barrier.ReceivedIsLast | src/alpha_engine/engine.py:145-146 | of several bars of one symbol and time the last one counts |
| Orchestrator.StrategyOrchestrator.RegisterStrategy | src/alpha_engine/engine.py:121-126 | the strategy is listed once more, with an empty barrier; the others keep theirs |
| Orchestrator.StrategyOrchestrator.OnIncomingBar | src/alpha_engine/engine.py:128-151 | every strategy takes a step of its own barrier, as often as it is registered, after the bar was noted as last known |
| Orchestrator.StrategyOrchestrator.Deliver | src/alpha_engine/engine.py:133-151 | the loop body touches the barrier of its own strategy only |
| Orchestrator.StrategyOrchestrator.TriggerIfComplete | src/alpha_engine/engine.py:150-151 | hands over the bars exactly when the lengths agree |
| Orchestrator.StrategyOrchestrator.Trigger | src/alpha_engine/engine.py:153-166 | hands over the buffered bars and empties the buffer |
| Orchestrator.StrategyOrchestrator.FlushBarrier | src/alpha_engine/engine.py:168-189 | the loop fills every missing subscribed symbol forward and no other, then hands over |
| Orchestrator.StrategyOrchestrator.OnIncomingBars | src/alpha_engine/engine.py:128-151 | any sequence of bars after its last registration gives a strategy the run on which the theorems rest, whatever bars came before and however often it is registered |
| Gregorian.YearsClosedForm | cmd/bff/main.go:1710-1712 | the leap-year count of days equals the closed form with three quotients |
| Easter.MoonTermIsEpact | cmd/bff/main.go:1794-1801 | the program's moon term is the epact of the 19-year cycle with both century corrections, seen from 21 March |
| Easter.WeekBackIff | cmd/bff/main.go:1805 | the division by 451 is one exactly for the two exceptional moons on a Sunday, and zero otherwise |
| Easter.SumIsSunday | cmd/bff/main.go:1802-1804 | moon term and Sunday term together always fall on a Sunday of the Gregorian day count |
| Easter.EasterIsSundayAfterFullMoon | cmd/bff/main.go:1793-1809 | for every year the result is a Sunday from March 22 to April 25, within the week after the ecclesiastical full moon |
| Easter.RuleDeterminesEaster | cmd/bff/main.go:1793-1809 | any date that satisfies the rule is the program's answer |
| Holidays.GoodFridayIsFriday | cmd/bff/main.go:1741-1746 | Good Friday is a valid date two days before Easter and a Friday in every year |
| Holidays.ClosedExactlyOnItsDate | cmd/bff/main.go:1728-1784 | each closure is announced on its computed date of the year and on no other |
| Holidays.ClosureDates | cmd/bff/main.go:1728-1784 | every closure but New Year's has a date in every year, New Year's has one unless January 1 is a Saturday, and all fall on Monday to Friday |
| Holidays.ClosedHasAName | cmd/bff/main.go:1710-1791 | a closed date is the date of its named closure and never an early close; an open date is the date of none |
| Holidays.TenClosures | cmd/bff/main.go:1710-1791 | every year has exactly 10 closed dates, or 9 exactly when January 1 is a Saturday |
| Holidays.EarlyCloseIff | cmd/bff/main.go:1764-1790 | early closes are exactly July 3 and December 24 from Monday to Thursday and the fourth Friday of November, each under its own label; other open days have no label |
| Holidays.BlackFridayFollowsThanksgivingIff | cmd/bff/main.go:1772-1778 | that Friday follows Thanksgiving if and only if November does not start on a Friday |
| Holidays.InNovember | cmd/bff/main.go:1772-1778 | November has exactly these two special days, the fourth Thursday and the fourth Friday |
| Holidays.BlackFriday2024 | cmd/bff/main.go:1772-1778 | in 2024 November starts on a Friday: the early close is the 22nd and Thanksgiving the 28th |
| Drawdown.Scan | src/alpha_engine/analytics.py:91-119 | the one pass yields the drawdown from the running maximum at every point, the first deepest one with its peak and trough, and the length of the longest stretch below the maximum, for every series; it fails with a division by zero if and only if the series falls below a running maximum of zero |
| Drawdown.FindRecovery | src/alpha_engine/analytics.py:121-126 | the first point after the trough that is back at the peak, if there is one |
| Drawdown.ComputeDrawdownDetails | src/alpha_engine/analytics.py:74-143 | all reported figures and timestamps, also for short series and short timestamp lists, and exactly when there is none |
| Drawdown.ZeroStartIsUndefined | src/alpha_engine/analytics.py:102-113 | a series that starts at zero and then goes below it divides by zero |
| Drawdown.PositiveStartIsDefined | src/alpha_engine/analytics.py:91-113 | a series that starts positive never divides by zero |
| Drawdown.DeepestIsGreatestLoss | src/alpha_engine/analytics.py:102-117 | the reported drawdown is the greatest relative loss over all pairs of points, and peak and trough attain it |
| Adjuster.ComputeAdjustmentFactors | src/alpha_engine/data/adjuster.py:46-84 | the backward loop writes for every bar the product of all later split and dividend multipliers, and of the split multipliers alone; 1 for the last bar |
| Adjuster.AppendingRescales | src/alpha_engine/data/adjuster.py:61-79 | newer bars multiply the factors of all older bars by one common number |
| Adjuster.AppendingRescalesSplits | src/alpha_engine/data/adjuster.py:61-79 | the same for the split factors |
| Adjuster.RatiosStand | src/alpha_engine/data/adjuster.py:111-127 | so adjusted prices of older bars keep their ratios (cross-multiplied, zero prices included) |
| Adjuster.SplitFactorIsPositive | src/alpha_engine/data/adjuster.py:67-75 | split factors are positive for any split data, so volumes can be divided by them |
| Adjuster.TradedValueStands | src/alpha_engine/data/adjuster.py:111-127 | without later dividends adjusted price times adjusted volume is raw price times raw volume |
| Adjuster.AdjustedPriceContinues | src/alpha_engine/data/adjuster.py:66-79 | if a bar's close times its new shares is the previous close less its dividend, the adjusted closes of both bars are equal, for splits, dividends, both or neither |
| Adjuster.AdjustedVolumeContinues | src/alpha_engine/data/adjuster.py:111-127 | adjusted volumes count new shares: old volume times new shares adjusts like the new volume |
| Adjuster.WholeDividendLeavesNothing | src/alpha_engine/data/adjuster.py:70-76 | a dividend of the whole previous close or more makes all older factors zero |
| Adjuster.NewestStands | src/alpha_engine/data/adjuster.py:54-55 | the newest bar is not adjusted |
| CircuitBreaker.ClosedIsBelowThreshold | cmd/risk_node/interceptor/risk.go:63-100 | under any interleaving of attempts and outcomes a closed breaker has fewer than three failures |
| CircuitBreaker.ProbeReopensIff | cmd/risk_node/interceptor/risk.go:63-100 | under any interleaving, a failed half-open probe reopens the breaker if and only if at least two failures were reported since the last success |
| CircuitBreaker.LateSuccessDisarmsProbe | cmd/risk_node/interceptor/risk.go:63-100 | four admitted calls, of which three fail and the last succeeds late: the next failed probe leaves the breaker half open |
| CircuitBreaker.ServeAllRests | cmd/risk_node/interceptor/risk.go:176-313 | after any sequence of requests and cache updates the failure count is the current run of failed attempts and the breaker is open exactly from three on |
| CircuitBreaker.AdmissionRule | cmd/risk_node/interceptor/risk.go:176-313 | with any cache updates between requests, a request is admitted exactly unless three attempts in a row failed and the cooldown has not passed; if not, it calls nothing and records nothing; if so, it records exactly one outcome, which decides open or closed; the handler runs exactly for approved orders |
| CircuitBreaker.HandlerIffApproved | cmd/risk_node/interceptor/risk.go:218-313 | over any session the handler is called if and only if the order is admitted, its symbol is known as not blacklisted (by a fresh entry or else by the membership answer) and the script answers exactly APPROVED; a blacklisted symbol reaches neither script nor handler; an attempt counts as a failure exactly when the query fails or the script gives no text |
| CircuitBreaker.AdmittedBy | cmd/risk_node/interceptor/risk.go:224-313 | the calls, the outcome and the cache after a request, each by the answers it gets |
| CircuitBreaker.ScriptIsSentAlong | cmd/risk_node/interceptor/risk.go:269-272 | an unknown digest is followed by a second script call |
| CircuitBreaker.CallsInOrder | cmd/risk_node/interceptor/risk.go:237-308 | the membership query comes first, the handler last, and only an unknown digest makes two script calls |
| CircuitBreaker.ToldIsNoted | cmd/risk_node/interceptor/risk.go:133-206 | word from the backend replaces the entry of its symbol and nothing else |
| RiskNode.BreakerObject.constructor | cmd/risk_node/interceptor/risk.go:48-55 | a new breaker is closed without failures |
| RiskNode.BreakerObject.RecordSuccess | cmd/risk_node/interceptor/risk.go:63-71 | takes the success step |
| RiskNode.BreakerObject.RecordFailure | cmd/risk_node/interceptor/risk.go:73-83 | takes the failure step |
| RiskNode.BreakerObject.CanAttempt | cmd/risk_node/interceptor/risk.go:85-100 | takes the attempt step and answers whether the call may go ahead |
| RiskNode.SplitMsg | cmd/risk_node/interceptor/risk.go:209-216 | splits at the first colon, and fails if and only if there is none |
| RiskNode.RiskNode.CacheSet | cmd/risk_node/interceptor/risk.go:133-140 | notes one symbol with its time |
| RiskNode.RiskNode.SyncBlacklist | cmd/risk_node/interceptor/risk.go:176-186 | exactly the listed members become blacklisted and every other entry stands |
| RiskNode.RiskNode.OnBlacklistUpdate | cmd/risk_node/interceptor/risk.go:194-206 | ADD and REMOVE note their symbol, and any other message changes nothing |
| RiskNode.RiskNode.CheckOrder | cmd/risk_node/interceptor/risk.go:224-313 | every path, with breaker and cache updated in place, gives the outcome, the calls and the state of the request rule |
| RiskNode.RiskNode.RiskInterceptor | cmd/risk_node/interceptor/risk.go:218-313 | an order is checked; a request that is not an order goes straight to the handler and changes nothing |
| RlEnv.SettledMeetsTarget | src/alpha_engine/rl/env.py:107-130 | filling the pending order brings the position to the target it was placed for |
| RlEnv.PositionFollowsTargets | src/alpha_engine/rl/env.py:93-166 | over every episode at most one order is pending, the position stays within the maximum, and each step moves it to exactly the target of the step before |
| RlEnv.EpisodeNav | src/alpha_engine/rl/env.py:42-166 | at every point of every episode the NAV is the initial cash plus realized and unrealized profit less the commissions of opening fills |
| RlEnv.RoundIff | src/alpha_engine/rl/env.py:142 | the rounded target is the one nearest integer, or the even one of two |
| RlEnv.TargetIsNearest | src/alpha_engine/rl/env.py:94-143 | the target is the nearest to the number of shares that the weighted NAV buys, the weight cut to -1..1 and the target to the greatest position |
| RlEnv.TargetHasSignOfWeight | src/alpha_engine/rl/env.py:142-143 | a long weight of a positive NAV never asks for a short position, nor the other way around |
| RlEnv.StepAims | src/alpha_engine/rl/env.py:128-150 | after a step, position and pending order make up that target, at the NAV after the fills and the close of the row |
| RlEnv.OrderPays | src/alpha_engine/rl/env.py:108-121 | an order pays the close plus its impact, or gets it less its impact, and the commission on that |
| RlEnv.EpisodeMovesOn | src/alpha_engine/rl/env.py:49-152 | every step that takes place moves on by one row and leaves the symbol marked at its close |
| RlEnv.TradingGymEnv.ResetEnv | src/alpha_engine/rl/env.py:42-57 | a fresh portfolio at the first index with no pending order |
| RlEnv.TradingGymEnv.FillPending | src/alpha_engine/rl/env.py:107-124 | the loop fills all pending orders in order |
| RlEnv.TradingGymEnv.StepEnv | src/alpha_engine/rl/env.py:93-166 | takes the step of the episode, and terminates exactly at the end of the data or at a tenth of the initial cash |

## Left out

- Ems.StateMachine.SubmitOrder: orders are values in the registry, so a caller's pointer to a live order is not captured; the lock of an order is the record in flight in OrderMachine.
- Ems.StateMachine.RecoverFromWal: a log that cannot be read or parsed is one flag; JSON lines, timestamps of records and torn writes are not modelled, and an append that fails has written nothing.
- OrderMachine.StepKeeps: runs assume quantities that the request validation lets through and that fit an int32, non-negative deltas, and a fill counter that does not wrap; OverFillCaughtIff and WrappedReportIsAccepted say what wrapping does to the check.
- OrderMachine.Begin: the check and the store of SubmitOrder are one step, so submits of one order id are taken one at a time; a venue report for an order begins only after its submit has logged.
- OrderMachine.Begin: a panic ends the process like a crash.
- Backtest: a strategy reads the portfolio and order dictionaries and submits orders from on_bar only; what it does is one function of its state, the context and the bars, with its submits and cancels carried out in order.
- Backtest.NoLookahead: rows are taken as sorted by time; the sort, the schema normalisation and the reading of Parquet files are not modelled.
- Book.SlippagePct: the power with exponent alpha is an arbitrary function of the ratio of quantity and volume.
- BacktestDriver.BacktestContext: an order dictionary is a value in the orders map and the pending list holds ids, so sharing of the dictionary between the two is not captured; order ids are their numbers, order types other than LIMIT are one kind.
- SymbolAggregator.Aggregator.PublishBar: marshalling and sending always succeed; the routing of ticks to one aggregator per symbol and its channel are not modelled; timestamps are at least 0.
- Orchestrator.StrategyOrchestrator.Trigger: the price marks and pending orders of the strategy's context are left to the backtest model; strategies are numbers, and the two dictionaries keyed by strategy are one.
- BarrierTheorems.CallsAreDue: the forward fill uses the last bar received, which may already be the newer bar that caused the flush.
- Holidays.ClosedExactlyOnItsDate: dates are year, month and day from year 1 on; the conversion of a clock time to New York time is not modelled.
- Drawdown.DeepestIsGreatestLoss: for a series that starts positive and never goes negative; for others the report is the deepest drawdown from the running maximum only.
- RiskNode.RiskNode.CheckOrder: answers of Redis and the handler, and the times at which they come, are inputs; the margin script and request timeouts are not modelled, and failures are counted without the int32 limit.
- CircuitBreaker.AdmissionRule: speaks of requests one after another; what concurrent requests share is covered by ClosedIsBelowThreshold, ProbeReopensIff and LateSuccessDisarmsProbe.
- RlEnv.TradingGymEnv.StepEnv: reward, observation, information dictionary and random seed are not modelled, and closing prices are positive.
- Adjuster.AdjustedPriceContinues: of the price columns only the close is modelled; open, high and low are scaled by the same factor.
- Floating-point rounding: all prices and amounts are exact reals.
- BacktestContext in src/alpha_engine/engine.py, which can drop an order and leave it PENDING: the driver's context is modelled instead.
- Synthetic bars, session labels, vendor and key resolution, report ratios and strategy signals: straight-line arithmetic, table lookups or library calls.
- HTTP, gRPC, Redis, ZeroMQ, SQL and Parquet transport, and the web user interface: input and output.

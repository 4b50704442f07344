# Trading bot: a verified model

This project models the money-handling core of a prediction-market trading bot (its weather
strategies, its risk gate, its executor, its stop-loss monitor and its resolution reviewer) and
proves what that core promises over every run. `dafny verify dfyconfig.toml` checks all of it.

Four groups of modules:

* **The trade lifecycle.** `Journal` is the table of trade rows and every write made to it. `Risk`
  and `Breaker` are the pre-trade gate. `Orders`, `Execution`, `Settlement` and `Position` say what
  each order, exit and settlement computes. `Network` is one order over a lossy HTTP link.
  `Submission` and `Monitors` are the executor, stop-loss and reviewer methods over that table.
  `Lifecycle` puts journal, breaker and exchange into one state machine; `Stake`, `SafeRows`, `Caps`,
  `MarketCeiling`, `DailyLoss`, `Latch`, `Account` and `Conservation` prove invariants of all its runs,
  and `Phantoms` says what is left of them when order answers are lost, unreadable or duplicate.
* **The forecast ensemble.** `Buckets` parses questions into half-open intervals, `Ensemble` builds
  the weighted Gaussian mixture, `Mixture` proves its bucket probabilities are a distribution,
  `Invariance` what they do not depend on, and `Selection` what that means for an event's trades.
* **The price ladder.** `Ladder` is the map of fired thresholds with its pruning and its hydration
  from the journal; `Climb` relates it to price history.
* **Fast forms.** `Drawdown`, `Timeseries` and `MarketCache` against their plain definitions.

`Units` and `Sums` hold the number conventions and the lemmas on sums they share.

## How the model reads the program

* Dollars, prices and temperatures are exact reals; rounding the program asks for (`round(_, 6)`,
  `round(_, 2)`, `round`, `ceil`, `floor`, `int`) is modelled exactly, with ties to even. Kalshi
  quantities are integers counting hundredths of a contract. Times are seconds.
* `check_trade` and `record_entry` are one event, as nothing else can run between them. The order
  phase, each stop check and each settlement of one row are one event each; between a live entry and
  its order phase no other component touches that row. `Caps.CapsSurviveAnyWrites` does without this.
* The exchange is trusted with this much: Kalshi quotes and fills at 1 to 99 cents, fills at most
  what was ordered, at an average no worse than the limit; it charges no fees, trades no finalised
  market, and refuses a repeated client order id before looking at anything else. Its own answers are
  truthful; that they arrive, or arrive readable, is not assumed.
* For Kalshi the row's market id is the ticker the order names; rows carry a token, so a stop check
  looks its mark up by market. A NULL pnl counts as zero.
* The normal distribution function enters only as monotone with values in [0, 1]; `exp` and `sqrt`
  are arbitrary functions, monotone where the agreement score is compared.

## Where the code and its words differ

* `check_and_execute` says it returns the number of positions stopped. It counts every due exit that
  did not raise, unfilled, partial and dust ones included; the count is the number of positions closed
  if and only if every counted exit is a full one (`Monitors.CountIsClosedIff`), and a table where it is
  not is `Monitors.UnfilledIsCounted`.
* The catch-all handler of `submit` says nothing was placed. That fails exactly when some post arrived
  and was filled and the answer that ended the posting, if any did, was not the exchange's own: all
  lost, an error status in its place, an unreadable body, or a success without a fill count
  (`Network.PhantomIff`, `Phantoms.VoidedHidesFillIff`; one internal server error is enough,
  `Network.ServerErrorHidesFill`).
* `trip()` does not roll the day, so a trip made first thing after midnight is cleared by the next
  check (`Breaker.ManualTripHoldsIff`, `Breaker.TripLostAtMidnight`).
* Entries choose paper or live per strategy, stop-loss exits per exchange; they agree exactly when the
  allowlist is empty or names the strategy (`Execution.ExitModeMatchesEntryIff`). Otherwise a stop on a
  paper row sells contracts the account never bought (`Phantoms.PaperRowSellsShort`). Conservation and
  the sharp daily-loss bound assume they agree.
* A row kept after a `duplicate` answer holds `size / price` shares. A partial exit leaves exactly the
  remainder if and only if that is a whole number of hundredths, and puts contracts into the row exactly
  when the odd part rounds up (`Stake.ConjuresIff`); the row then loses more than it cost exactly when
  the conjured contracts outweigh the exit, to a micro-dollar (`Stake.ShrunkThenLost`, with
  `Stake.UnreconciledRowLosesMore` as one such row). The daily-loss bound has half a hundredth in it for
  this.
* The one-contract minimum overspends a size below the limit price (`Orders.OverspendsIff`). An order
  keeps its market under the ceiling, whatever its answer, if and only if the exposure leaves room for
  that overspend (`MarketCeiling.OrderKeepsCeilingIff`). With a dust floor of 0.99 dollars there is none
  and the ceiling is an invariant; without it `MarketCeiling.CeilingBroken` is a run over the ceiling,
  and the excess is at most the overspends since the market's last admitted entry, so at most one
  contract in all when entries on a market are serial.
* Hydration restores only rungs with an open row. A lower rung that was retired rather than bought can
  be bought after a restart (`Climb.RestartRefiresIff`).
* A Kalshi question is read down to its numbers and a direction. "a to b" and "h or below" pay on their
  last integer reading but are priced without that whole degree, and ">l" is priced with a degree it
  does not pay on; "<h" and "l or above" are exact. So the price is right if and only if the wording is
  one of those two or the degree carries no mass (`Mixture.KalshiPriceExactIff`), and with a strictly
  increasing distribution function the wording alone decides (`Mixture.KalshiPriceExactIffWording`);
  "93 to 94" is worked out in `Mixture.NinetyThreeToNinetyFour`.
* With no weighted forecast a "below" contract is priced as certain (`Mixture.NoMembersMakesUnderCertain`).
  The threshold formula and the bucket integral agree on a member if and only if its spread is at least
  the formula's own floor of 1e-9 (`Mixture.FormulasAgreeIff`).

## Model

| member | source | states |
|---|---|---|
| `Journal.TradeJournal.RecordEntry` | core/logger.py:108-134 | appends the row and returns its id |
| `Journal.TradeJournal.UpdateEntryFill` | core/logger.py:154-173 | rewrites price, shares and size of that row only; an unknown id changes nothing |
| `Journal.TradeJournal.ApplyPartialExit` | core/logger.py:175-205 | shrinks that row and adds the realised chunk, rounded to six digits, to its bank |
| `Journal.TradeJournal.RecordExit` | core/logger.py:136-152 | closes that row as won or lost without dating it |
| `Journal.TradeJournal.Void` | core/logger.py:207-223 | voids that row with zero pnl |
| `Journal.TradeJournal.RecordResolution` | monitoring/reviewer.py:473-478 | closes and dates that row |
| `Journal.TradeJournal.OpenPositions` | core/logger.py:225-228 | every pending row once, in table order, and as many as are counted open |
| `Journal.NoWriteReopens` | core/logger.py:136-223 | no write but an insert makes a row pending, whatever the id or values |
| `Breaker.LatchHolds` | core/risk.py:299-322 | once tripped today, every later check of the day is refused whatever pnl does |
| `Breaker.TrippingArms` | core/risk.py:215-248 | a check or evaluation at or below the limit leaves the latch armed for its own day |
| `Breaker.ManualTripHoldsIff` | core/risk.py:455-463 | a manual trip blocks all of today if and only if the day had already been rolled, for any limit a configuration can set |
| `Breaker.TripLostAtMidnight` | core/risk.py:455-463 | a concrete run in which a manual trip is wiped by the next check |
| `Breaker.WarnsOncePerDay` | core/risk.py:227-234 | at most one drawdown warning per UTC day under any operations and any pnl |
| `Breaker.PaperNeverBlocks` | core/risk.py:208-222 | in paper mode nothing is blocked, tripped or warned |
| `Risk.KellySize` | core/risk.py:141-153 | the stake is between zero and the Kelly fraction of the bankroll |
| `Risk.TierCap` | core/risk.py:258-265 | the cap is the global one or that of a tier holding the volume, never above the global one |
| `Risk.ApprovedSize` | core/risk.py:379-407 | never above the position cap, nor above the headroom when there is a ceiling |
| `Risk.ApprovedSizeBounds` | core/risk.py:379-418 | an approved size is positive, at least the dust floor, and within every money cap |
| `Risk.RiskManager.MaybeRollDay` | core/risk.py:199-206 | a new UTC day clears the latch and the warning, the same day changes nothing |
| `Risk.RiskManager.IsHalted` | core/risk.py:208-213 | answers the latch of the current day; never halted on paper |
| `Risk.RiskManager.EvaluateCircuitBreaker` | core/risk.py:215-248 | steps the breaker with the journal's pnl and reports whether the warning went out |
| `Risk.RiskManager.Trip` | core/risk.py:455-463 | sets the latch without rolling the day, and does nothing on paper |
| `Risk.RiskManager.ExposureByCategory` | core/risk.py:420-436 | the loop's tallies are the open size of each category and of the book |
| `Risk.RiskManager.SizeTrade` | core/risk.py:379-453 | approves if and only if every money cap leaves room, at the clamped size, and names an exhausted cap otherwise |
| `Risk.RiskManager.CountCaps` | core/risk.py:324-377 | passes if and only if the day, dedup, global and per-strategy counts leave room, and names a full one otherwise |
| `Risk.RiskManager.CheckTrade` | core/risk.py:283-453 | approval is exactly the conjunction of all gates, the size the clamped one, and a refusal's reason really holds |
| `Orders.Snap` | core/kalshi_client.py:502-520 | an accepted order has 1 to 99 whole cents and at least a hundredth of a contract |
| `Orders.BuyLimitCovers` | core/executor.py:542-544 | the buy limit is a whole cent at or above the signal, at most 0.99, and no cheaper cent covers the offset price |
| `Orders.BuyPassesUnchanged` | core/kalshi_client.py:502-520 | the client sends exactly the buy the executor priced |
| `Orders.BuyFitsSize` | core/executor.py:546-547 | a size worth one contract is spent to within one contract |
| `Orders.OverspendsIff` | core/executor.py:546-547 | the minimum of one contract overspends exactly when the size is below the limit, by less than one contract |
| `Orders.SellPassesUnchanged` | core/stop_loss.py:367-389 | the sell limit is a whole cent at or below the mark and is sent as it is unless under a hundredth is left |
| `Execution.ExitModeMatchesEntryIff` | core/stop_loss.py:68-72 | entry and exit agree on paper or live exactly when the exchange is paper or the allowlist allows the strategy |
| `Settlement.OutcomeMatchesPnl` | monitoring/reviewer.py:361-447 | a row is marked won exactly when its remainder earned something; a lost remainder costs its size; the two sides never win together |
| `Position.RemainderExact` | core/stop_loss.py:241-251 | the half-hundredth test closes a row exactly when nothing is left, and the rounded remainder is the exact one |
| `Position.PartialKeepsTrack` | core/stop_loss.py:241-257 | a partial exit leaves a row that still tracks the exchange position |
| `Position.FullStopCloses` | core/stop_loss.py:276-292 | selling the remainder closes the row with the last chunk alone |
| `Position.BankError` | core/logger.py:197-199 | the banked pnl is what the exits earned to within half a micro-dollar an exit |
| `Position.SettledPnlExact` | monitoring/reviewer.py:426-447 | settled pnl is exits plus payout minus cost for every split of the exit, within the rounding |
| `Position.StoppedPnlExact` | core/stop_loss.py:276-285 | after a full stop, pnl and bank together are exits minus cost, within the rounding |
| `Position.NeverLosesMoreThanCost` | monitoring/reviewer.py:426-447 | no split of the exit ever records a loss beyond the cost |
| `Stake.FillWithinSize` | core/executor.py:546-547 | a fair fill costs at most its approved size, or at most one contract |
| `Stake.Overspend` | core/executor.py:546-547 | what the minimum of one contract may add to a size: zero if and only if the size buys one at the limit |
| `Stake.FillFitsIff` | core/executor.py:546-547 | every fair fill fits its size if and only if the size buys one contract at the limit |
| `Stake.ShrinkingLowersStake` | core/stop_loss.py:241-257 | a partial exit lowers both the open size and the worst loss, but for half a hundredth off the grid |
| `Stake.StopCostsAtMost` | core/stop_loss.py:276-285 | a closing stop loses at most the row's size, but for half a hundredth off the grid |
| `Stake.PaperStopLosesAtLeast` | core/stop_loss.py:125-133 | a stop booked at the mark realises at least the configured fraction of the cost |
| `Stake.SettlementCostsAtMost` | monitoring/reviewer.py:426-447 | settlement loses at most the row's size plus what its exits lost |
| `Stake.ConjuresIff` | core/stop_loss.py:241-251 | a partial exit leaves exactly the remainder if and only if the row is on the hundredths grid, and adds contracts if and only if its odd part rounds up |
| `Stake.ShrunkThenLost` | monitoring/reviewer.py:426-447 | after a partial exit and a lost settlement, pnl is exit minus cost minus the charge for conjured contracts, to a micro-dollar |
| `Stake.UnreconciledRowLosesMore` | core/executor.py:402-412 | one row, kept after a duplicate answer, that meets that condition and loses more than it ever cost |
| `Lifecycle.TableFollowsWrites` | core/logger.py:108-223 | every event changes the table by exactly the one write it makes |
| `Lifecycle.WriteTouchesOpenRow` | core/logger.py:136-223 | an update touches one open row and never its identity or entry time |
| `Caps.CapsSurviveAnyWrites` | core/risk.py:347-377 | global, per-strategy and dedup caps hold under guarded entries and arbitrary, even stale, other writes |
| `Caps.CapsHold` | core/risk.py:347-377 | global, per-strategy and dedup caps hold in every reachable state of the whole system |
| `Caps.WriteKeepsDailyCap` | core/logger.py:286-299 | no entry or update of an open row breaks the day's count |
| `Caps.DailyCapHolds` | core/risk.py:324-330 | non-voided entries of the UTC day stay within the cap in every reachable state |
| `SafeRows.EntrySafe` | core/executor.py:279-320 | an approved entry starts with its size matching its shares and its worst loss under the cap |
| `SafeRows.OrderSafe` | core/executor.py:434-456 | voiding, keeping or truing up an entry keeps its worst loss under the cap |
| `SafeRows.StopOpSafe` | core/stop_loss.py:205-292 | a stop keeps the row within its bounds, or closes it with at most the capped loss |
| `SafeRows.StepKeepsSafe` | core/stop_loss.py:119-141 | every event of the system keeps every open row within its bounds |
| `MarketCeiling.ActLowersLoad` | core/stop_loss.py:246-257 | no order phase, exit or settlement adds to a market's load |
| `MarketCeiling.MarketCeilingHolds` | core/risk.py:390-418 | with a dust floor of one contract the open size on a market never exceeds the ceiling, in any run |
| `MarketCeiling.MarketOvershootExact` | core/risk.py:390-418 | in every run the excess over the ceiling is at most the overspends of open rows whose order phase finished since the market's last admitted entry |
| `MarketCeiling.MarketOvershootBounded` | core/executor.py:446-456 | so at most one contract per such order phase, and per open row on the market |
| `MarketCeiling.SerialOvershootBounded` | core/risk.py:390-418 | when no entry on the market is admitted while a row on it awaits its order, the excess is at most one contract in all |
| `MarketCeiling.OrderKeepsCeilingIff` | core/executor.py:546-547 | no answer to a row's order breaks the ceiling if and only if the exposure plus its overspend fits |
| `MarketCeiling.CeilingBroken` | core/executor.py:546-547 | a fair two-event run without a dust floor that ends over the ceiling |
| `DailyLoss.EntryKeepsFloor` | core/risk.py:314-364 | an entry taken above the limit with a slot free keeps the day above its floor |
| `DailyLoss.UpdateKeepsFloor` | core/logger.py:261-284 | closing a row costs at most one slot and frees it |
| `DailyLoss.DailyLossBound` | core/risk.py:314-364 | in live mode the day's realised pnl stays above minus the limit minus one cap per free slot, in every run |
| `Latch.NoEntryUntilNextDay` | core/risk.py:299-322 | a tripped breaker means no further row until the UTC day changes, whatever else happens |
| `Account.OrderBooks` | core/executor.py:434-456 | a definite order answer leaves a row that matches what the exchange executed |
| `Account.SaleBooks` | core/stop_loss.py:240-292 | a partial or full stop leaves a row that matches what the exchange executed |
| `Account.LedgerNearFlow` | monitoring/reviewer.py:438-447 | what the journal says a row is worth differs from its cash flow by its rounding only |
| `Account.FinaliseReconciles` | monitoring/reviewer.py:426-447 | finalising a market pays exactly the contracts its rows still hold |
| `Account.ReconciledHolds` | core/executor.py:434-456 | shares and cash of journal and exchange reconcile in every state reached with definite answers |
| `Conservation.JournalAgreesWithExchange` | core/executor.py:355-456 | open shares on an unfinalised market are exactly the contracts held; voided and stopped rows hold none |
| `Conservation.CashIsConserved` | core/stop_loss.py:241-292 | cash plus open cost is starting cash plus recorded pnl plus banked exits, within the stated rounding, in every run |
| `Phantoms.VoidedHidesFillIff` | core/executor.py:413-456 | an entry is voided while contracts were bought if and only if the fates of its posts hide a fill |
| `Phantoms.StrayContracts` | core/executor.py:355-456 | in every fair run, whatever the order answers, contracts held are the open shares plus the stray ones: voided fills, duplicate differences, sales of paper rows |
| `Phantoms.DuplicateStray` | core/executor.py:402-412 | a row kept after a duplicate is stray by what was executed less what was recorded |
| `Phantoms.PartialExitDrifts` | core/stop_loss.py:241-251 | each partial exit of it takes off exactly the contracts its rounding conjures |
| `Phantoms.PaperRowSellsShort` | core/stop_loss.py:68-72 | a stop on a paper row of an unlisted strategy on a live exchange sells what was never bought, exactly when it finds a bid |
| `Network.AttemptSplits` | core/executor.py:553-574 | two nested retry loops are one run of posts |
| `Network.KnownIdNeverExecutes` | core/executor.py:549-551 | an id the exchange has seen is never executed again, and only a clear answer says it is known |
| `Network.OnePost` | core/kalshi_client.py:287-336 | one post under a new id executes its own fill or nothing, is retried exactly when its answer is lost, and tells the truth only by a clear answer |
| `Network.AtMostOnce` | core/executor.py:549-578 | however messages are lost or spoiled, exactly the first fill to arrive is executed, if any; acceptance or duplicate means one, insufficient funds or volume none, any other error neither |
| `Network.PhantomIff` | core/executor.py:413-428 | a voided entry hides an execution if and only if some post was filled and the posting did not end in a clear answer |
| `Network.ServerErrorHidesFill` | core/kalshi_client.py:326-331 | one server error after a fill: one post, no retry, the entry voided, contracts held |
| `Network.KalshiClient.Request` | core/kalshi_client.py:287-336 | one post, classified by what came back, error statuses and unreadable or empty bodies included |
| `Network.KalshiClient.RetryingRequest` | core/kalshi_client.py:338-356 | retries transient errors only, at most the configured number of posts |
| `Network.KalshiClient.PostOrder` | core/executor.py:553-574 | both loops together make one run of at most the product of the two limits |
| `Submission.SubmitIsTwoEvents` | core/executor.py:262-456 | a submit is the lifecycle's entry followed by its order phase |
| `Submission.NetworkOutcomeIsFair` | core/executor.py:553-578 | every outcome the network allows is one the lifecycle accounts for |
| `Submission.Executor.PlaceKalshiOrder` | core/executor.py:484-578 | posts nothing for a NO, unready or stale signal, and otherwise one bounded run of one order |
| `Submission.Executor.Submit` | core/executor.py:235-477 | records a row if and only if the gate approves, then voids, keeps or trues it up; accepted means still pending, and the amount reported is the row's size; posts and executions bounded |
| `Submission.Executor.FollowOrder` | core/executor.py:349-477 | each outcome of the order call leads to its own write and answer |
| `Monitors.CountIsClosedIff` | core/stop_loss.py:119-141 | the reported count is the number of rows closed if and only if every counted exit is a full one, and never less |
| `Monitors.UnfilledIsCounted` | core/stop_loss.py:218-239 | one due position whose exit finds no bid: counted as stopped, left open |
| `Monitors.StopLossManager.CheckAndExecute` | core/stop_loss.py:77-141 | every due row, and no other, gets its own exit's write; the count is of exits that did not raise, and the fall of the open count if and only if all of those are full |
| `Monitors.StopLossManager.CheckOne` | core/stop_loss.py:120-139 | one position's turn touches that row alone |
| `Monitors.StopLossManager.ExecuteStop` | core/stop_loss.py:185-292 | full, partial, empty, dust and failed exits each lead to the specified write or none |
| `Monitors.StopCheckIsEvent` | core/stop_loss.py:119-139 | the monitor's write to a row is the lifecycle's stop check of it |
| `Monitors.Reviewer.CheckResolutions` | monitoring/reviewer.py:157-190 | settles every pending row on a resolved market, no other, and counts them |
| `Monitors.Reviewer.CheckExchange` | monitoring/reviewer.py:297-331 | one exchange's rows settle and the open count falls by the number closed |
| `Monitors.Reviewer.RecordResolution` | monitoring/reviewer.py:449-478 | writes outcome, folded pnl and date to that row alone |
| `Monitors.ReviewIsEvent` | monitoring/reviewer.py:319-330 | the resolution pass's write to a row is the lifecycle's settlement of it |
| `Buckets.TilesIffConsecutive` | strategies/weather/markets.py:270-297 | parsed questions tile the line if and only if each starts one integer after the last ended |
| `Buckets.ConsecutiveDistinct` | strategies/weather/markets.py:283-296 | consecutive questions get distinct labels |
| `Buckets.TilesDisjoint` | strategies/weather/markets.py:270-297 | pieces of a tiling are disjoint and proper |
| `Buckets.ExactlyOneContains` | strategies/weather/strategy.py:629-634 | any temperature lies in exactly one bucket of a tiling |
| `Buckets.ExactlyOneSettles` | backtesting/adapters/weather.py:253-258 | exactly one bucket of a tiling settles at 1.0 and the rest at 0.0 |
| `Buckets.OnePrimary` | strategies/weather/strategy.py:584-599 | the label of the point forecast marks exactly the bucket that holds it |
| `Ensemble.UnitsRoundTrip` | strategies/weather/noaa.py:60-65 | the two conversions undo each other and keep order |
| `Ensemble.MembersNormal` | strategies/weather/ensemble.py:244-274 | weights are a distribution, and there are no members only if no forecast carries weight |
| `Ensemble.EnsembleForecaster.MembersInCanonicalUnit` | strategies/weather/ensemble.py:244-274 | the loop keeps weighted sources in order, converts, corrects and renormalises |
| `Ensemble.EnsembleForecaster.MixtureMass` | strategies/weather/ensemble.py:205-207 | the inner loop sums the members' weighted interval masses |
| `Ensemble.EnsembleForecaster.Build` | strategies/weather/ensemble.py:176-219 | the result is the specified one, and none without members |
| `Ensemble.EnsembleForecaster.CdfExceedance` | strategies/weather/ensemble.py:221-242 | the mixture's tail mass, and 0 without members |
| `Mixture.BelowOrder` | strategies/weather/ensemble.py:286-298 | the mixture's distribution function is monotone within [0, 1] |
| `Mixture.ProbIsMass` | strategies/weather/ensemble.py:202-208 | a bucket's probability is the mass between its bounds, so the clamp never bites |
| `Mixture.LookupFinds` | strategies/weather/strategy.py:602 | with distinct labels every lookup finds its own bucket's probability |
| `Mixture.TilingSumsToOne` | strategies/weather/ensemble.py:202-208 | over a tiling the reported probabilities sum to exactly one |
| `Mixture.ConsecutiveSumsToOne` | strategies/weather/ensemble.py:176-219 | from question shapes to result: consecutive questions and one weighted forecast give a sum of one |
| `Mixture.DisjointSumsAtMostOne` | strategies/weather/ensemble.py:202-208 | over disjoint buckets in any order the sum is at most one |
| `Mixture.ContractIsBucket` | strategies/weather/strategy.py:365-374 | the threshold formulas integrate exactly [low, high), [low, inf) and (-inf, high) of the stated numbers |
| `Mixture.PayingBucketReadings` | strategies/weather/kalshi_markets.py:15-19 | the bucket a contract pays on holds exactly the temperatures whose integer reading its question covers, as the other venue's parser has it |
| `Mixture.KalshiMisreadsOneDegree` | strategies/weather/kalshi_markets.py:157-181 | price and paying bucket differ by exactly one degree's mass, left out or taken in according to the wording |
| `Mixture.KalshiPriceExactIff` | strategies/weather/strategy.py:365-374 | the price is right if and only if the wording is exact or that degree has no mass |
| `Mixture.KalshiPriceExactIffWording` | strategies/weather/strategy.py:365-374 | with a strictly increasing distribution function, if and only if the wording is exact |
| `Mixture.NinetyThreeToNinetyFour` | strategies/weather/kalshi_markets.py:13-18 | one range contract priced a degree too low |
| `Mixture.NoMembersMakesUnderCertain` | strategies/weather/ensemble.py:234-237 | `build` answers none exactly when no forecast carries weight, and then a "below" contract gets probability one |
| `Mixture.ZeroSpreadDisagrees` | strategies/weather/ensemble.py:286-290 | for a member of zero spread the two formulas differ on its mean |
| `Mixture.FormulasAgreeIff` | strategies/weather/ensemble.py:238-240 | they agree at every threshold if and only if the spread is at least 1e-9 |
| `Invariance.WeightScaleInvariant` | strategies/weather/ensemble.py:257-274 | scaling all weights by a positive factor leaves the whole result unchanged |
| `Invariance.UnitInvariant` | strategies/weather/ensemble.py:277-283 | restating a Celsius market in Fahrenheit keeps members, agreement and probabilities and converts the point |
| `Invariance.BiasIsBucketShift` | strategies/weather/ensemble.py:127-131 | a city's bias equals moving every bucket up by it |
| `Invariance.PointInHull` | strategies/weather/ensemble.py:196 | the point forecast lies within the hull of the corrected means |
| `Invariance.SpreadZeroIffUnanimous` | strategies/weather/ensemble.py:197-200 | the variance is never negative, and zero if and only if all means agree |
| `Invariance.AgreementFalls` | strategies/weather/ensemble.py:197-200 | a wider spread never scores higher agreement |
| `Invariance.AgreementAtMostOne` | strategies/weather/ensemble.py:197-200 | agreement is at most one, and one for unanimous models |
| `Invariance.UnbiasedSame` | strategies/weather/ensemble.py:127-131 | a bias that is not applied changes nothing |
| `Selection.WeatherStrategy.BucketLabelForValue` | strategies/weather/strategy.py:629-634 | the loop finds the label of the first bucket holding the value |
| `Selection.WeatherStrategy.ScanEvent` | strategies/weather/strategy.py:557-613 | the signals are exactly the buckets that clear role, edge and agreement, in order |
| `Selection.FewPass` | strategies/weather/strategy.py:429-443 | at most the floor of 1 / min_model_prob of an event's signals pass the gate |
| `Selection.PrimaryHoldsPoint` | strategies/weather/strategy.py:584-599 | a signal is primary if and only if its bucket holds the point forecast |
| `Selection.OneWinner` | backtesting/adapters/weather.py:253-258 | at most one of an event's signals settles at 1.0 |
| `Selection.BacktestPicksSame` | backtesting/adapters/weather.py:151-179 | the backtest selects the live signals whenever the city's bias is not applied |
| `Ladder.Crossed` | strategies/lazy_weather/strategy.py:201 | exactly the thresholds the price has reached that have not fired |
| `Ladder.LazyWeatherStrategy.Hydrate` | strategies/lazy_weather/strategy.py:107-154 | the loop over open rows leaves the hydrated map |
| `Ladder.LazyWeatherStrategy.Consider` | strategies/lazy_weather/strategy.py:185-212 | one listing fires the highest crossed rung and retires the rest, or nothing |
| `Ladder.LazyWeatherStrategy.Scan` | strategies/lazy_weather/strategy.py:168-225 | the whole scan with its garbage collection; an empty fetch changes nothing |
| `Climb.LadderRefinesPrices` | strategies/lazy_weather/strategy.py:185-217 | for every scan history, fired is the thresholds up to the peak price and the rungs bought climb to its top |
| `Climb.FewRungs` | strategies/lazy_weather/strategy.py:43-50 | at most one buy per distinct threshold while listed |
| `Climb.OneRungPerScan` | strategies/lazy_weather/strategy.py:205-212 | a scan fires at most one rung of any market |
| `Climb.SignalsInBand` | strategies/lazy_weather/strategy.py:185-212 | every buy of every run is at or above its own configured rung and at or below the price cap |
| `Climb.BoughtIsAll` | strategies/lazy_weather/strategy.py:214-217 | for a market listed in every scan since first seen, those rungs are all that were ever bought |
| `Climb.HydratedExactly` | strategies/lazy_weather/strategy.py:131-149 | a rung is restored if and only if this strategy and exchange has an open row for it |
| `Climb.FiredStaysFired` | strategies/lazy_weather/strategy.py:199-217 | a fired rung is never bought again while its market is listed |
| `Climb.NoOpenRungRefires` | strategies/lazy_weather/strategy.py:107-149 | after a restart no rung with an open row is bought again while listed |
| `Climb.FiresIff` | strategies/lazy_weather/strategy.py:185-204 | a listing fires if and only if it is eligible and some reached threshold has not fired |
| `Climb.RestartRefiresIff` | strategies/lazy_weather/strategy.py:131-149 | a restarted strategy buys where the running one would not if and only if some reached threshold has no open row |
| `Drawdown.Extend` | backtesting/report.py:118-124 | one more trade extends the high-water mark and the greatest drop |
| `Drawdown.MaxDrawdown` | backtesting/report.py:113-125 | the one-pass loop returns the greatest fall over all pairs of points |
| `Drawdown.ApiMaxDrawdown` | api/routes/performance.py:137-146 | the API's one-pass loop returns minus the greatest fall over all pairs of points |
| `Drawdown.BothDrawdowns` | api/routes/performance.py:137-146 | on the same trades the two are exact negations, and zero if and only if equity never falls |
| `Timeseries.Bucketed` | api/routes/performance.py:302-311 | each bucket holds the profit of exactly the trades floored to it |
| `Timeseries.Series` | api/routes/performance.py:313-324 | evenly spaced points from floored start to floored end, each the rounded profit of the window it closes |
| `Timeseries.NextBucket` | api/routes/performance.py:319-320 | widening the window by one bucket gains exactly that bucket's trades |
| `Timeseries.TotalsConserve` | api/routes/performance.py:287-311 | given the query's start, the total at a point is the profit of every trade floored at or before it |
| `MarketCache.MarketCache.Put` | core/market_cache.py:78-94 | logs one write |
| `MarketCache.MarketCache.PutMany` | core/market_cache.py:96-113 | logs the rows in order under one timestamp |
| `MarketCache.MarketCache.Get` | core/market_cache.py:115-120 | the latest write if within its own TTL, otherwise nothing |
| `MarketCache.MarketCache.GetFresh` | core/market_cache.py:122-129 | exactly the ids the log shows fresh, of the asked category |
| `MarketCache.MarketCache.EvictStale` | core/market_cache.py:131-137 | drops exactly the stale entries, counts them, and leaves the log as it was |
| `MarketCache.MarketCache.Clear` | core/market_cache.py:139-141 | empties the log |
| `MarketCache.MarketCache.Stats` | core/market_cache.py:143-148 | total is fresh plus stale, and fresh is the number of ids the log shows, evicted or not |
| `MarketCache.EvictionCoherent` | core/market_cache.py:131-137 | eviction is unobservable from then on |

## Left out

- Live Polymarket orders (tranches, the CLOB client): no fill is reconciled, so no agreement holds; the model only keeps that the row stays as recorded or is voided.
- Lost or unreadable answers to stop-loss sells: each check uses a new client order id, so every result takes the sale it is told of as the sale made.
- A quote request that fails before the order: the fresh midpoint is a parameter and always arrives.
- Stale snapshots in the monitors' own loops: money bounds and agreement assume one row's check is atomic.
- HTTP, signing, SQLite, locks, logging, alerts, the pause hook after insufficient funds, retry delays.
- Floating-point noise, and timestamps compared as text.
- Question regexes, city aliases, unit mismatches and market discovery; parsing starts at a recognised question shape.
- Fetching forecasts and observations, the resolution registry, rate limits and caches of the weather clients.
- Kalshi market scanning and its filters before pricing; only the probability of a contract is modelled.
- Signal metadata, counterfactual annotation of stops, weekly review metrics and mismatch flags.
- Sorting the backtest's trades and the query's rows: both drawdown loops take trades in order.
- The backtest's evaluation gate: it has neither the `min_model_prob` floor nor the edge cap, so `Selection.FewPass` is about the live gate alone.
- The order in which `get_fresh` lists snapshots.
- An empty threshold list, on which the ladder raises as soon as a market is listed.
- Arbitrage and whale strategies, the dashboard API apart from drawdown and series, deployment.

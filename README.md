# InvestaTrack position accounting, in Dafny

This project models the accounting core of InvestaTrack, a Spring service for
tracking stock portfolios:

- **Ledger.** Buy and sell transactions are recorded in a ledger.
- **Incremental update.** Each recorded transaction updates the position of its (portfolio, stock) pair. Cost is kept as a weighted average, and averages are rounded half-up to two places.
- **Rebuild.** Deleting a transaction rebuilds that pair's position by replaying the remaining ledger.
- **Portfolio totals.** A portfolio's total value and total cost are the sums over its active positions, those with a quantity above zero.
- **Stock catalog.** Symbols are upper-cased and unique.

Modules, one per concern of the source:

| module | file | models |
|---|---|---|
| `Common` | common.dfy | ids, opaque timestamps, `Option`/`Result`, one `Error` per exception the services throw |
| `Money` | money.dfy | `BigDecimal` amounts as integer cents, `RoundingMode.HALF_UP` division, gain/loss and its percentage |
| `Transactions` | transactions.dfy | the `Transaction` entity (a value), its constructor, `getNetAmount` and declared constraints |
| `Positions` | positions.dfy | the `Position` entity (a class updated in place) and `updateCurrentValue` |
| `Portfolios` | portfolios.dfy | the `Portfolio` entity (a value) and its gain/loss |
| `Stocks` | stocks.dfy | the `Stock` entity and upper-case symbol normalisation |
| `Repositories` | repositories.dfy | the stores as maps and a sequence, and the queries the services use |
| `StockCatalog` | stock_service.dfy | `StockService` |
| `PortfolioAggregation` | portfolio_service.dfy | `PortfolioService` and the sums over active positions |
| `PositionAccounting` | position_accounting.dfy | the arithmetic of the incremental update and of the replay, as pure functions |
| `PositionEngine` | position_service.dfy | `PositionService`: the same arithmetic on `Position` objects |
| `TransactionLedger` | transaction_service.dfy | `TransactionService` and what each of its operations does to the stores |

## How the model is built

**Money.** Every money column is a `BigDecimal` of scale 2, so it is modelled as an integer number of cents. Percentages are scale-4 integers. `Money.DivHalfUp` is `divide(…, RoundingMode.HALF_UP)`: it is characterised by `IsHalfUpQuotient` (nearest integer, ties away from zero), and that characterisation is proved to have one solution only.

**Services.** Each service is a class whose constant fields are the repositories and services it is wired to. Failures are `Result.Failure` values.

**Rollback.** A `@Transactional` method that fails part-way is modelled by undoing what it wrote. `TransactionLedger.CreateReport` and `TransactionLedger.DeleteReport` state the whole effect of recording and of deleting on the five stores, which together are `TransactionLedger.Books`. The one exception: an id handed out to a rolled-back insert stays used, as with an IDENTITY column.

**Clock and users.** The clock and the user service are parameters: a `now` timestamp, and the set of known user ids.

**Two consequences of the code as written, which the model keeps.**
- *The rebuild is not the incremental update.* `recalculatePosition` zeroes `averageCost` before its loop, and the loop then reduces cost on a partial sale by `averageCost × quantity`, which is zero. A rebuild therefore does not reproduce the incremental result once a partial sale is in the ledger (`PositionAccounting.PartialSellDiverges`). The two agree on purchase-only ledgers (`PositionAccounting.BuysOnlyRecalcAgrees`).
- *The partial-sale example.* BUY 10 at 190.23 with 4.95 fees, then SELL 4, leaves 1144.33 of cost: 1907.25 − 190.73 × 4, where 190.73 is the rounded average. `PositionAccounting.BuyThenPartialSell` proves this figure, and `PositionAccounting.PartialSellBreaksAverage` shows the kept average is then no longer cost over quantity.

## Model

Source paths are relative to the repository root.

| member | source | states |
|---|---|---|
| Money.DivHalfUp | src/main/java/com/InvestaTrack/services/PositionService.java:83-85 | the quotient is the nearest integer to n/d, ties away from zero, with the sign of the exact quotient |
| Money.HalfUpQuotientUnique | src/main/java/com/InvestaTrack/services/PositionService.java:83-85 | the half-up rounding of a quotient is unique, so any value meeting the rounding rule equals `DivHalfUp` |
| Money.HalfUpTiesAwayFromZero | src/main/java/com/InvestaTrack/models/Position.java:146 | exact halves round away from zero on both sides (2.5 → 3, −2.5 → −3), which matters for losses |
| Money.GainLoss | src/main/java/com/InvestaTrack/models/Position.java:132-137 | gain plus cost is the value |
| Money.GainLossPercentage | src/main/java/com/InvestaTrack/models/Position.java:141-147 | zero for a zero cost; otherwise a multiple of 100 whose hundredth is gain/cost rounded half-up to four places |
| Money.DoubledValueIsHundredPercent | src/main/java/com/InvestaTrack/models/Position.java:141-147 | a holding worth twice its cost reports exactly +100.0000 % |
| Money.WipedOutIsMinusHundredPercent | src/main/java/com/InvestaTrack/models/Position.java:141-147 | a holding worth nothing reports exactly −100.0000 % |
| Transactions.NewTransaction | src/main/java/com/InvestaTrack/models/Transaction.java:71-79 | the five-argument constructor sets total amount = price × quantity, fees 0 and no date; valid quantity and price give a valid total |
| Transactions.NetAmount | src/main/java/com/InvestaTrack/models/Transaction.java:156-162 | a BUY costs amount plus fees, a SELL yields amount minus fees: never less (resp. more) than the amount, and off from it by exactly the fees |
| Positions.RefreshValue | src/main/java/com/InvestaTrack/models/Position.java:150-154 | with a price, value = price × quantity; without one nothing changes; quantity and costs never change |
| Positions.Position.constructor | src/main/java/com/InvestaTrack/models/Position.java:36-63 | a new position has quantity, average cost, total cost and current value all zero |
| Positions.Position.GainLoss | src/main/java/com/InvestaTrack/models/Position.java:132-137 | gain plus total cost is the current value |
| Positions.Position.GainLossPercentage | src/main/java/com/InvestaTrack/models/Position.java:141-147 | zero for a zero cost, otherwise the half-up four-place ratio times 100 |
| Positions.Position.UpdateCurrentValue | src/main/java/com/InvestaTrack/models/Position.java:150-154 | the new state is `RefreshValue` of the old one: only the current value can change |
| Portfolios.NewPortfolio | src/main/java/com/InvestaTrack/models/Portfolio.java:34-40 | a new portfolio has zero totals, hence zero gain and zero percentage |
| Portfolios.PortfolioGainLoss | src/main/java/com/InvestaTrack/models/Portfolio.java:137-142 | zero when a total is null, otherwise gain plus cost is the value |
| Portfolios.PortfolioGainLossPercentage | src/main/java/com/InvestaTrack/models/Portfolio.java:145-151 | zero for a null or zero cost, otherwise the half-up four-place ratio times 100 |
| Stocks.NewStock | src/main/java/com/InvestaTrack/models/Stock.java:63-67 | the constructor keeps symbol, name and price; sector unset, market cap at its zero default |
| Stocks.ToUpper | src/main/java/com/InvestaTrack/services/StockService.java:37 | upper-casing keeps the length, maps each letter to its capital and leaves no lower-case letter |
| Stocks.ToUpperIdempotent | src/main/java/com/InvestaTrack/services/StockService.java:44 | normalising twice is normalising once; an upper-case symbol is unchanged |
| Stocks.ToUpperIgnoresCase | src/main/java/com/InvestaTrack/services/StockService.java:119 | symbols that differ only in letter case normalise to the same symbol |
| Repositories.ActiveKeys | src/main/java/com/InvestaTrack/repos/PositionRepository.java:22-24 | exactly the portfolio's positions whose quantity is positive |
| Repositories.ForPair | src/main/java/com/InvestaTrack/repos/TransactionRepository.java:26 | an entry is in the result exactly when it is a ledger entry of the (portfolio, stock) pair; never longer than the ledger |
| Repositories.ForPairCounts | src/main/java/com/InvestaTrack/repos/TransactionRepository.java:26 | each entry of the pair occurs in the result exactly as often as in the ledger, every other entry never |
| Repositories.ForPortfolio | src/main/java/com/InvestaTrack/repos/TransactionRepository.java:17 | an entry is in the result exactly when it is a ledger entry of the portfolio; never longer than the ledger |
| Repositories.ForPortfolioCounts | src/main/java/com/InvestaTrack/repos/TransactionRepository.java:17 | each entry of the portfolio occurs in the result exactly as often as in the ledger, every other entry never |
| Repositories.WithoutId | src/main/java/com/InvestaTrack/services/TransactionService.java:126 | `deleteById`: an entry remains exactly when it is in the ledger with a different id |
| Repositories.WithoutIdCounts | src/main/java/com/InvestaTrack/services/TransactionService.java:126 | each entry with another id remains exactly as often as in the ledger, the deleted id's entries never |
| Repositories.WithoutIdKeepsIds | src/main/java/com/InvestaTrack/services/TransactionService.java:126 | deleting an entry keeps the remaining ids distinct |
| Repositories.TransactionRepository.FindById | src/main/java/com/InvestaTrack/services/TransactionService.java:45-48 | finds an entry exactly when one carries the id, and returns that entry |
| Repositories.TransactionRepository.Add | src/main/java/com/InvestaTrack/services/TransactionService.java:83 | `save` of a new entry gives it the next id, appends it, and keeps ids distinct |
| StockCatalog.ApplyStockDetails | src/main/java/com/InvestaTrack/services/StockService.java:55-73 | each non-null detail is copied and each null one leaves the field; symbol and timestamp never change |
| StockCatalog.StockDetailsIdempotent | src/main/java/com/InvestaTrack/services/StockService.java:55-73 | applying the same details twice equals applying them once; all-null details change nothing |
| StockCatalog.StockService.GetStockById | src/main/java/com/InvestaTrack/services/StockService.java:30-33 | the stored stock exactly when the id is known, else "Stock not found" |
| StockCatalog.StockService.GetStockBySymbol | src/main/java/com/InvestaTrack/services/StockService.java:36-39 | succeeds exactly when the upper-cased symbol is stored, and the id returned is the only one with that symbol |
| StockCatalog.StockService.CreateStock | src/main/java/com/InvestaTrack/services/StockService.java:42-52 | refused exactly when the upper-cased symbol exists; otherwise one stock is added under a fresh id with that symbol; symbols stay unique |
| StockCatalog.StockService.UpdateStock | src/main/java/com/InvestaTrack/services/StockService.java:55-73 | unknown id fails and changes nothing; otherwise only that stock changes, as `ApplyStockDetails` says |
| StockCatalog.StockService.DeleteStock | src/main/java/com/InvestaTrack/services/StockService.java:76-81 | unknown id fails and changes nothing; otherwise exactly that stock is removed |
| StockCatalog.StockService.UpdateStockPrice | src/main/java/com/InvestaTrack/services/StockService.java:102-107 | unknown id fails; otherwise only that stock's price and last-updated time change |
| StockCatalog.StockService.UpdateStockPriceBySymbol | src/main/java/com/InvestaTrack/services/StockService.java:110-115 | unknown upper-cased symbol fails; otherwise only that stock's price and time change |
| StockCatalog.StockService.GetOrCreateStock | src/main/java/com/InvestaTrack/services/StockService.java:118-134 | a known symbol returns that stock, refreshing price and time only for a non-null price and creating nothing; a new symbol creates exactly one stock with the upper-cased symbol; symbols stay unique |
| PortfolioAggregation.InactivePositionIgnored | src/main/java/com/InvestaTrack/repos/PositionRepository.java:22-24 | a position with quantity ≤ 0 contributes nothing to either portfolio total |
| PortfolioAggregation.ActivePositionCounted | src/main/java/com/InvestaTrack/services/PortfolioService.java:109-112 | an active position adds exactly its current value and its total cost to the totals |
| PortfolioAggregation.OtherPortfolioIgnored | src/main/java/com/InvestaTrack/services/PortfolioService.java:106 | positions of other portfolios do not affect a portfolio's totals |
| PortfolioAggregation.AggregateNonNegative | src/main/java/com/InvestaTrack/models/Portfolio.java:34-40 | the declared non-negative totals hold whenever the summed positions have non-negative amounts |
| PortfolioAggregation.ApplyPortfolioDetails | src/main/java/com/InvestaTrack/services/PortfolioService.java:66-86 | each non-null detail is copied, each null one leaves the field, the owner never changes |
| PortfolioAggregation.PortfolioService.GetPortfolioById | src/main/java/com/InvestaTrack/services/PortfolioService.java:39-42 | the stored portfolio exactly when the id is known, else "Portfolio not found" |
| PortfolioAggregation.PortfolioService.CreatePortfolio | src/main/java/com/InvestaTrack/services/PortfolioService.java:50-63 | fails exactly for a null user, a null user id or an unknown user (the first two as "invalid user"), changing nothing; otherwise adds the portfolio under a fresh id |
| PortfolioAggregation.PortfolioService.UpdatePortfolio | src/main/java/com/InvestaTrack/services/PortfolioService.java:66-86 | unknown id fails and changes nothing; otherwise only that portfolio changes, as `ApplyPortfolioDetails` says |
| PortfolioAggregation.PortfolioService.DeletePortfolio | src/main/java/com/InvestaTrack/services/PortfolioService.java:89-94 | unknown id fails and changes nothing; otherwise exactly that portfolio is removed |
| PortfolioAggregation.PortfolioService.SumActivePositions | src/main/java/com/InvestaTrack/services/PortfolioService.java:106-112 | the loop's totals are the sums of current value and of total cost over the active positions, in any visiting order |
| PortfolioAggregation.PortfolioService.UpdatePortfolioValues | src/main/java/com/InvestaTrack/services/PortfolioService.java:102-118 | unknown id fails and changes nothing; otherwise only the portfolio's two totals change, to the sums over its active positions |
| PortfolioAggregation.PortfolioService.GetPortfolioSummary | src/main/java/com/InvestaTrack/services/PortfolioService.java:121-135 | unknown id fails; otherwise the stored totals and gain/loss, the active positions, and their number as `totalPositions` |
| PositionAccounting.ApplyTransaction | src/main/java/com/InvestaTrack/services/PositionService.java:73-111 | BUY: quantity up by the quantity bought, cost up by the net amount, average = cost/quantity half-up; it fails only for a zero new quantity. SELL: fails exactly when more is sold than held; a full sell-out zeroes quantity, cost and average; a partial sale lowers cost by average × quantity and keeps the average |
| PositionAccounting.IncrementalKeepsConsistent | src/main/java/com/InvestaTrack/services/PositionService.java:67-119 | from a consistent position (no negative quantity, no cost without shares), well-formed updates keep it consistent, and the only possible failure is an oversell |
| PositionAccounting.BuyAddsNetAmount | src/main/java/com/InvestaTrack/services/PositionService.java:73-78 | a well-formed BUY always succeeds and raises the cost by exactly its net amount, which is at least its total amount |
| PositionAccounting.ReplayStep | src/main/java/com/InvestaTrack/services/PositionService.java:155-170 | one replay step moves quantity by the signed quantity; a BUY adds its net amount; a SELL clears cost at zero shares and otherwise leaves it |
| PositionAccounting.RecalcState | src/main/java/com/InvestaTrack/services/PositionService.java:172-181 | the replayed quantity and cost are stored, the average is their half-up ratio when shares remain and zero otherwise |
| PositionAccounting.ReplayQuantityIsNet | src/main/java/com/InvestaTrack/services/PositionService.java:155-170 | the replayed quantity is shares bought minus shares sold, negative values included |
| PositionAccounting.ReplayCostNonNegative | src/main/java/com/InvestaTrack/services/PositionService.java:155-170 | with well-formed entries the replayed cost is never negative |
| PositionAccounting.BuysOnlyWeightedAverage | src/main/java/com/InvestaTrack/services/PositionService.java:73-89 | for purchases only, both paths hold the shares and cash spent, and the average is cash/shares rounded half-up |
| PositionAccounting.BuysOnlyRecalcAgrees | src/main/java/com/InvestaTrack/services/PositionService.java:139-187 | for purchases only, the rebuild equals the incremental result field for field |
| PositionAccounting.PartialSellDiverges | src/main/java/com/InvestaTrack/services/PositionService.java:149-165 | after a buy and a partial sale, the incremental cost is strictly below the rebuilt cost |
| PositionAccounting.BuyThenPartialSell | src/main/java/com/InvestaTrack/services/PositionService.java:73-111 | BUY 10 at 190.23 with 4.95 fees, SELL 4: incremental 6 shares, average 190.73, cost 1144.33; rebuild 6 shares, average 317.88, cost 1907.25 |
| PositionAccounting.PartialSellBreaksAverage | src/main/java/com/InvestaTrack/services/PositionService.java:104-111 | after that partial sale the kept average 190.73 is no longer cost/quantity rounded (190.72) |
| PositionAccounting.BuyThenSellSeed | src/main/java/com/InvestaTrack/controllers/TestDataController.java:75-76 | the seed BUY 5 at 310.00 with 2.00 fees then SELL 2 leaves 3 shares, average 310.40, cost 931.20 |
| PositionAccounting.NegativeResidualCost | src/main/java/com/InvestaTrack/services/PositionService.java:104-108 | a rounded-up average can over-reduce the cost, leaving −0.48 for one share and then a negative average, against the declared non-negative columns |
| PositionAccounting.OversoldReplayDividesByZero | src/main/java/com/InvestaTrack/services/PositionService.java:156-158 | a replay with more sold than bought yields a negative quantity, after which a BUY of the missing shares divides by zero |
| PositionEngine.PriceOf | src/main/java/com/InvestaTrack/models/Position.java:151 | a stored stock yields exactly its current price (possibly null); an unknown stock yields none |
| PositionEngine.RefreshedView | src/main/java/com/InvestaTrack/services/PositionService.java:190-197 | every position of the portfolio is refreshed from its stock's price; all others are untouched |
| PositionEngine.RefreshIdempotent | src/main/java/com/InvestaTrack/services/PositionService.java:190-197 | refreshing twice with the same prices equals refreshing once |
| PositionEngine.RefreshKeepsCost | src/main/java/com/InvestaTrack/services/PositionService.java:190-197 | refreshing values changes neither which positions are active nor the portfolio's total cost |
| PositionEngine.PositionUpdateMovesQuantity | src/main/java/com/InvestaTrack/services/PositionService.java:67-119 | a successful update moves the pair's quantity by exactly the signed quantity; the current value becomes price × new quantity, or is kept without a price |
| PositionEngine.PositionService.GetPositionByPortfolioAndStock | src/main/java/com/InvestaTrack/services/PositionService.java:61-64 | the pair's position when stored, null otherwise |
| PositionEngine.PositionService.GetOrCreatePosition | src/main/java/com/InvestaTrack/services/PositionService.java:122-136 | returns the stored position of the pair, or stores one fresh zeroed position for it; fails, changing nothing, for an unknown portfolio and then an unknown stock; at most one position per pair |
| PositionEngine.PositionService.ApplyToPosition | src/main/java/com/InvestaTrack/services/PositionService.java:73-116 | the in-place field updates produce `ApplyTransaction` of the old state with the value refreshed; a refused transaction changes no field |
| PositionEngine.PositionService.UpdatePositionFromTransaction | src/main/java/com/InvestaTrack/services/PositionService.java:67-119 | the pair's position becomes the incremental update refreshed at the stock's price, and no other position changes; a failure leaves every position, and the set of stored positions, as before |
| PositionEngine.PositionService.RecalculatePosition | src/main/java/com/InvestaTrack/services/PositionService.java:139-187 | the pair's position becomes the replay of its ledger entries, refreshed at the stock's price, and no other position changes; fails only when the position must be created for an unknown portfolio or stock |
| PositionEngine.PositionService.RecalculateStored | src/main/java/com/InvestaTrack/services/PositionService.java:145-184 | reset, replay, store and refresh give `RecalcState` of the replay, refreshed |
| PositionEngine.PositionService.ReplayLedger | src/main/java/com/InvestaTrack/services/PositionService.java:151-170 | the loop's accumulators end equal to the replay of the ledger |
| PositionEngine.PositionService.Replace | src/main/java/com/InvestaTrack/services/PositionService.java:172-181 | the stores after the loop give `RecalcState` of the totals, current value untouched |
| PositionEngine.PositionService.UpdatePortfolioPositionValues | src/main/java/com/InvestaTrack/services/PositionService.java:190-197 | positions end as `RefreshedView`: values refreshed for the portfolio's positions, no quantity or cost changed |
| TransactionLedger.SumByPermutation | src/main/java/com/InvestaTrack/services/TransactionService.java:164-171 | a sum over ledger entries does not depend on their order |
| TransactionLedger.Summarize | src/main/java/com/InvestaTrack/services/TransactionService.java:154-183 | the count is the ledger size; buy and sell counts, bought and sold amounts and fees are the sums over the entries of each type; buys plus sells is the count; net invested is bought minus sold |
| TransactionLedger.SummaryIgnoresOrder | src/main/java/com/InvestaTrack/services/TransactionService.java:155 | reordering the entries (the query sorts by date) gives the same summary |
| TransactionLedger.NetInvestedPlusFees | src/main/java/com/InvestaTrack/services/TransactionService.java:164-179 | net invested plus all fees is the net cash paid out over the ledger (sum of net amounts, buys positive) |
| TransactionLedger.Limit | src/main/java/com/InvestaTrack/services/TransactionService.java:148-151 | a negative limit fails; otherwise a prefix of at most `limit` entries, all of them when fewer |
| TransactionLedger.Filled | src/main/java/com/InvestaTrack/services/TransactionService.java:66-80 | total amount = price × quantity only when missing, date = now only when missing; every other field kept |
| TransactionLedger.FilledWellFormed | src/main/java/com/InvestaTrack/models/Transaction.java:44-66 | a draft meeting the declared constraints yields a saved entry meeting them |
| TransactionLedger.CreateRefusal | src/main/java/com/InvestaTrack/services/TransactionService.java:58-75 | checks in order: unknown portfolio exactly when it is missing; unknown stock exactly when the portfolio exists and the stock does not; for a sale without a position or with too few shares, insufficient shares reporting those available; no refusal exactly when every check passes |
| TransactionLedger.RefusedDraftChangesNothing | src/main/java/com/InvestaTrack/services/TransactionService.java:58-75 | a refused draft leaves every store, the id counter included, as it was |
| TransactionLedger.CreateAfterValidation | src/main/java/com/InvestaTrack/services/TransactionService.java:73-91 | a sale that passed the check is never refused by the position update, and the entry lands at the end of the ledger under the next id |
| TransactionLedger.CreateKeepsPositionsConsistent | src/main/java/com/InvestaTrack/services/TransactionService.java:83-91 | recording a well-formed transaction succeeds and keeps every position consistent |
| TransactionLedger.DeleteRemovesOnlyTheEntry | src/main/java/com/InvestaTrack/services/TransactionService.java:120-133 | after a deletion, exactly the entries with another id remain |
| TransactionLedger.AmendFees | src/main/java/com/InvestaTrack/services/TransactionService.java:108-117 | only the fees change, and only to a non-null new value |
| TransactionLedger.OrderDraft | src/main/java/com/InvestaTrack/services/TransactionService.java:190-196 | the given portfolio, stock, type, quantity and price; total = price × quantity, no date, and fees overridden only when non-null (otherwise 0) |
| TransactionLedger.TransactionService.ValidateSellTransaction | src/main/java/com/InvestaTrack/services/TransactionService.java:95-105 | fails exactly when there is no position or it holds fewer shares than sold, reporting the shares available (0 without a position) |
| TransactionLedger.TransactionService.GetTransactionById | src/main/java/com/InvestaTrack/services/TransactionService.java:45-48 | the entry with the id, failing exactly when no entry has it |
| TransactionLedger.TransactionService.CheckDraft | src/main/java/com/InvestaTrack/services/TransactionService.java:58-75 | the checks performed report exactly `CreateRefusal` of the stores |
| TransactionLedger.TransactionService.CreateTransaction | src/main/java/com/InvestaTrack/services/TransactionService.java:56-92 | `CreateReport`: on success the filled entry is appended under the next id, the pair's position gets the incremental update, and the portfolio's totals are recomputed from the new positions; a failure leaves every store as it was except the id counter |
| TransactionLedger.TransactionService.Record | src/main/java/com/InvestaTrack/services/TransactionService.java:66-91 | after the checks: fill, save, update the position, refresh the portfolio, as `CreateReport` states |
| TransactionLedger.TransactionService.SaveAndApply | src/main/java/com/InvestaTrack/services/TransactionService.java:83-88 | the entry is appended under the next id and its position updated; a refused update takes the entry back out |
| TransactionLedger.TransactionService.UpdateTransaction | src/main/java/com/InvestaTrack/services/TransactionService.java:108-117 | unknown id fails and changes nothing; otherwise only the matching entry changes, by `AmendFees`; ledger size and id counter kept |
| TransactionLedger.TransactionService.DeleteTransaction | src/main/java/com/InvestaTrack/services/TransactionService.java:120-133 | `DeleteReport`: unknown id fails; otherwise the entry is removed, its pair rebuilt from the remaining ledger and the portfolio refreshed; any failure leaves every store as it was |
| TransactionLedger.TransactionService.Expunge | src/main/java/com/InvestaTrack/services/TransactionService.java:124-132 | the effect of deleting a found entry is `DeleteEntry`, with full rollback on failure |
| TransactionLedger.TransactionService.DeleteAndRebuild | src/main/java/com/InvestaTrack/services/TransactionService.java:126-129 | the entry is removed and its pair's position rebuilt from what remains; a refused rebuild restores the ledger |
| TransactionLedger.TransactionService.CreateBuyTransaction | src/main/java/com/InvestaTrack/services/TransactionService.java:186-199 | records `OrderDraft` of a BUY exactly as `createTransaction` would |
| TransactionLedger.TransactionService.CreateSellTransaction | src/main/java/com/InvestaTrack/services/TransactionService.java:202-215 | records `OrderDraft` of a SELL exactly as `createTransaction` would |
| TransactionLedger.TransactionService.GetTransactionSummary | src/main/java/com/InvestaTrack/services/TransactionService.java:154-183 | the loop's result equals `Summarize` of the portfolio's entries |
| TransactionLedger.TransactionService.GetRecentTransactions | src/main/java/com/InvestaTrack/services/TransactionService.java:148-151 | `Limit` of the portfolio's entries; every entry returned belongs to the portfolio |

## Left out

- The controllers, DTOs, configuration and frontend are not part of this model. `User` and `UserService` enter only as the set of known user ids that `createPortfolio` consults.
- Clock reads (`LocalDateTime.now()`, `@CreationTimestamp`, `@UpdateTimestamp`) are a `now` parameter or are left unset. Persistence-time timestamp generation is not modelled.
- Bean validation at persistence is not modelled: `@Min(1)` on a transaction's quantity, `@DecimalMin` on its price, total amount and fees, `@DecimalMin` on the position, portfolio and stock columns, `@Size`, and `@NotNull`. In the source a violation makes the `save` (or the flush at commit) fail and rolls the whole call back; the model only states the constraints as predicates (`WellFormed`, `DraftWellFormed`, `AmountsNonNegative`) and uses them as lemma hypotheses. As a consequence the model records, where the source would roll back:
  - a draft that is not `DraftWellFormed`, such as a SELL of −5 shares, which passes the checks whenever a position exists and then raises both quantity and cost;
  - the sale behind `NegativeResidualCost`, which stores a negative total cost;
  - a rebuild from an oversold ledger (`OversoldReplayDividesByZero`) at a positive price, which stores a negative quantity and current value.
- TransactionLedger.TransactionService.CreateTransaction: a null `fees` is not modelled; a draft always carries a fee amount. The fees column has a lower bound but no `@NotNull` (Transaction.java:64-66), so a request can set it to null. For a BUY the source then fails with a null-pointer error when the incremental update adds the fees (PositionService.java:75-77), and the whole call rolls back. For a SELL the entry is saved and committed, since the sell path never reads fees. From then on `getTransactionSummary` for that portfolio fails when it adds the fees (TransactionService.java:170), and so does `getNetAmount` on that entry (Transaction.java:156-162). The model's `Summarize` and `NetAmount` assume every stored entry has a fee amount.
- Foreign-key constraints are not modelled. A portfolio or stock can be deleted while positions or transactions still refer to it, and the services' own lookups then fail as shown.
- Query ordering is not modelled:
  - `ORDER BY transactionDate DESC` (the summary list and the recent list);
  - `ORDER BY currentValue DESC` (active positions).
  Ledger queries return stored order, and position sums are over sets.
- TransactionLedger.TransactionService.GetRecentTransactions: returns the first `limit` entries in stored order, not the most recent by date, because dates are opaque and the ordering query is not modelled.
- TransactionLedger.TransactionService.GetTransactionSummary: sums in stored order. The source sorts by date first. `SummaryIgnoresOrder` shows the result is the same.
- The buy and sell counts come from a separate `COUNT` query in the source. Here they are counts over the same list, which the query would return.
- Java `int` overflow of quantities and `Long` overflow of ids are not modelled; integers are unbounded. BigDecimal column precision limits are not modelled either.
- `String.toUpperCase` is modelled on ASCII letters only; locale and other Unicode case mappings are not modelled.
- An id drawn from the counter by a rolled-back insert is not returned to it. This matches an IDENTITY column.
- `@Transactional` concurrency and isolation are not modelled. Only the all-or-nothing effect of a failing call is.
- Read-only listings with no logic of their own are not modelled:
  - `getAllTransactions`, `getTransactionsByPortfolioId`, `getTransactionsByType`, `getTransactionsByDateRange`;
  - `getAllPortfolios`, `getPortfoliosByUserId`, `getPortfolioCountByUserId`, `getUserPortfoliosSummary`;
  - `getAllStocks`, `searchStocks`, `getStocksBySector`, `getAllSectors`, `getStocksBySymbols`;
  - the `deleteAll*` helpers.
- String rendering (`toString`, summaries as text) is not modelled.

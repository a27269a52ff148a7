/** `PositionService`: keeps one `Position` object per (portfolio, stock)
    pair up to date with the ledger, either incrementally per transaction or
    by replaying the pair's ledger. */
module PositionEngine {
  import opened Common
  import opened Money
  import opened Transactions
  import opened Positions
  import opened Stocks
  import opened Repositories
  import opened PositionAccounting
  import opened StockCatalog
  import opened PortfolioAggregation

  /** The price `updateCurrentValue` reads through the position's stock: none
      when the stock is unknown or its price is null. */
  function PriceOf(stocks: map<Id, Stock>, stockId: Id): (r: Option<Cents>)
    ensures r.Some? ==> stockId in stocks && stocks[stockId].currentPrice == r
    ensures stockId in stocks ==> r == stocks[stockId].currentPrice
  {
    if stockId in stocks then stocks[stockId].currentPrice else None
  }

  /** The stored state of a pair, or that of a new position. */
  function StateOrEmpty(view: map<PositionKey, PositionState>, key: PositionKey): PositionState {
    if key in view then view[key] else Empty
  }

  /** The outcome of `updatePositionFromTransaction` for the transaction's
      pair: a missing position can only be created for a known portfolio and
      a known stock (checked in that order); then the transaction is applied
      and the current value refreshed. */
  ghost function PositionUpdate(view: map<PositionKey, PositionState>, t: Transaction,
                                portfolioKnown: bool, stockKnown: bool, price: Option<Cents>): Result<PositionState>
  {
    var key := PositionKey(t.portfolioId, t.stockId);
    if key !in view && !portfolioKnown then Failure(PortfolioNotFound)
    else if key !in view && !stockKnown then Failure(StockNotFound)
    else
      match ApplyTransaction(StateOrEmpty(view, key), t)
      case Failure(e) => Failure(e)
      case Success(s) => Success(RefreshValue(s, price))
  }

  /** The state `recalculatePosition` leaves: the replay of the pair's ledger
      entries in stored order, with the current value refreshed (it is kept
      from before when no price is known). */
  ghost function Recalculated(view: map<PositionKey, PositionState>, key: PositionKey,
                              ledger: seq<Transaction>, price: Option<Cents>): PositionState
  {
    var totals := Replay(ForPair(ledger, key.portfolioId, key.stockId));
    RefreshValue(RecalcState(totals, StateOrEmpty(view, key).currentValue), price)
  }

  /** Every position of the portfolio with its current value refreshed from
      its stock's price; all other positions as they were. */
  function RefreshedView(view: map<PositionKey, PositionState>, portfolioId: Id, stocks: map<Id, Stock>)
    : (r: map<PositionKey, PositionState>)
    ensures r.Keys == view.Keys
    ensures forall k | k in view && k.portfolioId != portfolioId :: r[k] == view[k]
    ensures forall k | k in view && k.portfolioId == portfolioId :: r[k] == RefreshValue(view[k], PriceOf(stocks, k.stockId))
  {
    map k | k in view :: if k.portfolioId == portfolioId then RefreshValue(view[k], PriceOf(stocks, k.stockId)) else view[k]
  }

  /** The positions under `keys` refreshed, all others as they were. */
  function RefreshKeys(view: map<PositionKey, PositionState>, keys: set<PositionKey>, stocks: map<Id, Stock>)
    : map<PositionKey, PositionState>
  {
    map k | k in view :: if k in keys then RefreshValue(view[k], PriceOf(stocks, k.stockId)) else view[k]
  }

  lemma RefreshOneMore(view: map<PositionKey, PositionState>, keys: set<PositionKey>, k: PositionKey, stocks: map<Id, Stock>)
    requires k in view && k !in keys
    ensures RefreshKeys(view, keys, stocks)[k := RefreshValue(RefreshKeys(view, keys, stocks)[k], PriceOf(stocks, k.stockId))]
         == RefreshKeys(view, keys + {k}, stocks)
  {
  }

  lemma RefreshKeysOfPortfolio(view: map<PositionKey, PositionState>, portfolioId: Id, stocks: map<Id, Stock>)
    ensures RefreshKeys(view, PortfolioKeys(view, portfolioId), stocks) == RefreshedView(view, portfolioId, stocks)
  {
  }

  /** Refreshing twice with the same prices is refreshing once. */
  lemma RefreshIdempotent(view: map<PositionKey, PositionState>, portfolioId: Id, stocks: map<Id, Stock>)
    ensures RefreshedView(RefreshedView(view, portfolioId, stocks), portfolioId, stocks)
         == RefreshedView(view, portfolioId, stocks)
  {
  }

  /** Refreshing values changes neither which positions are active nor the
      portfolio's total cost. */
  lemma RefreshKeepsCost(view: map<PositionKey, PositionState>, portfolioId: Id, stocks: map<Id, Stock>)
    ensures ActiveKeys(RefreshedView(view, portfolioId, stocks), portfolioId) == ActiveKeys(view, portfolioId)
    ensures AggregateCost(RefreshedView(view, portfolioId, stocks), portfolioId) == AggregateCost(view, portfolioId)
  {
    var r := RefreshedView(view, portfolioId, stocks);
    assert ActiveKeys(r, portfolioId) == ActiveKeys(view, portfolioId);
    SumOverAgree(TotalCosts(r), TotalCosts(view), ActiveKeys(view, portfolioId));
  }

  /** A transaction that goes through changes its pair's quantity by exactly
      its signed quantity; its current value becomes the stock's price times
      the new quantity, or, without a known price, stays what it was. */
  lemma PositionUpdateMovesQuantity(view: map<PositionKey, PositionState>, t: Transaction,
                                    portfolioKnown: bool, stockKnown: bool, price: Option<Cents>)
    ensures var r := PositionUpdate(view, t, portfolioKnown, stockKnown, price);
      r.Success? ==> r.value.quantity == StateOrEmpty(view, PositionKey(t.portfolioId, t.stockId)).quantity + SignedQuantity(t)
    ensures var r := PositionUpdate(view, t, portfolioKnown, stockKnown, price);
      r.Success? && price.None? ==> r.value.currentValue == StateOrEmpty(view, PositionKey(t.portfolioId, t.stockId)).currentValue
    ensures var r := PositionUpdate(view, t, portfolioKnown, stockKnown, price);
      r.Success? && price.Some? ==> r.value.currentValue == price.value * r.value.quantity
  {
  }

  class PositionService {
    const positions: PositionRepository
    const transactions: TransactionRepository
    const portfolioService: PortfolioService
    const stockService: StockService

    constructor (positions: PositionRepository, transactions: TransactionRepository,
                 portfolioService: PortfolioService, stockService: StockService)
      ensures this.positions == positions && this.transactions == transactions
      ensures this.portfolioService == portfolioService && this.stockService == stockService
    {
      this.positions := positions;
      this.transactions := transactions;
      this.portfolioService := portfolioService;
      this.stockService := stockService;
    }

    /** The price of a stock as the position service sees it. */
    function Price(stockId: Id): Option<Cents>
      reads this, stockService, stockService.stocks
    {
      PriceOf(stockService.stocks.rows, stockId)
    }

    /** `getPositionByPortfolioAndStock`: the position, or null. */
    method GetPositionByPortfolioAndStock(portfolioId: Id, stockId: Id) returns (r: Option<Position>)
      ensures r.Some? <==> PositionKey(portfolioId, stockId) in positions.rows
      ensures r.Some? ==> r.value == positions.rows[PositionKey(portfolioId, stockId)]
    {
      r := positions.FindByKey(PositionKey(portfolioId, stockId));
    }

    /** `getOrCreatePosition`: the stored position of the pair; otherwise a new,
        empty one for a known portfolio and a known stock, stored at once. */
    method GetOrCreatePosition(portfolioId: Id, stockId: Id) returns (r: Result<Position>)
      requires positions.Valid()
      modifies positions
      ensures positions.Valid()
      ensures var key := PositionKey(portfolioId, stockId);
        && (key in old(positions.rows) ==> r == Success(old(positions.rows)[key]) && positions.rows == old(positions.rows))
        && (key !in old(positions.rows) && portfolioId !in portfolioService.portfolios.rows ==>
              r == Failure(PortfolioNotFound))
        && (key !in old(positions.rows) && portfolioId in portfolioService.portfolios.rows
              && stockId !in stockService.stocks.rows ==>
              r == Failure(StockNotFound))
        && (r.Failure? ==> positions.rows == old(positions.rows))
        && (key !in old(positions.rows) && r.Success? ==>
              && fresh(r.value) && r.value.Key() == key && r.value.State() == Empty
              && positions.rows == old(positions.rows)[key := r.value])
      ensures r.Failure? <==>
        PositionKey(portfolioId, stockId) !in old(positions.rows)
        && (portfolioId !in portfolioService.portfolios.rows || stockId !in stockService.stocks.rows)
      ensures r.Success? ==> positions.View() == old(positions.View())[PositionKey(portfolioId, stockId) := r.value.State()]
      ensures r.Failure? ==> positions.View() == old(positions.View())
    {
      var key := PositionKey(portfolioId, stockId);
      var existing := positions.FindByKey(key);
      if existing.Some? {
        assert positions.View() == old(positions.View())[key := existing.value.State()];
        return Success(existing.value);
      }
      var portfolio := portfolioService.GetPortfolioById(portfolioId);
      if portfolio.Failure? {
        return Failure(portfolio.error);
      }
      var stock := stockService.GetStockById(stockId);
      if stock.Failure? {
        return Failure(stock.error);
      }
      var p := new Position(portfolioId, stockId);
      positions.Insert(p);
      r := Success(p);
    }

    /** The field updates of `updatePositionFromTransaction`, made on the
        position in place, followed by the refresh of its current value; a
        refused transaction changes nothing. */
    method ApplyToPosition(p: Position, t: Transaction, price: Option<Cents>) returns (r: Result<()>)
      modifies p
      ensures ApplyTransaction(old(p.State()), t).Failure? <==> r.Failure?
      ensures r.Failure? ==> r.error == ApplyTransaction(old(p.State()), t).error && p.State() == old(p.State())
      ensures r.Success? ==> p.State() == RefreshValue(ApplyTransaction(old(p.State()), t).value, price)
    {
      if t.txType == Buy {
        var newTotalCost := p.totalCost + t.totalAmount + t.fees;
        var newQuantity := p.quantity + t.quantity;
        if newQuantity == 0 {
          return Failure(DivisionByZero);
        }
        var newAverageCost := DivHalfUp(newTotalCost, newQuantity);
        p.quantity := newQuantity;
        p.totalCost := newTotalCost;
        p.averageCost := newAverageCost;
      } else {
        var newQuantity := p.quantity - t.quantity;
        if newQuantity < 0 {
          return Failure(CannotSellMoreThanOwned);
        }
        if newQuantity == 0 {
          p.quantity := 0;
          p.totalCost := 0;
          p.averageCost := 0;
        } else {
          var costReduction := p.averageCost * t.quantity;
          p.quantity := newQuantity;
          p.totalCost := p.totalCost - costReduction;
        }
      }
      p.UpdateCurrentValue(price);
      r := Success(());
    }

    /** `ApplyToPosition` on a stored position, seen through the repository. */
    method ApplyStored(p: Position, t: Transaction, price: Option<Cents>) returns (r: Result<()>)
      requires positions.Valid() && p.Key() in positions.rows && positions.rows[p.Key()] == p
      modifies p
      ensures ApplyTransaction(old(p.State()), t).Failure? <==> r.Failure?
      ensures r.Failure? ==> r.error == ApplyTransaction(old(p.State()), t).error && p.State() == old(p.State())
      ensures r.Success? ==> p.State() == RefreshValue(ApplyTransaction(old(p.State()), t).value, price)
      ensures positions.View() == old(positions.View())[p.Key() := p.State()]
    {
      assert forall k | k in positions.rows && k != p.Key() :: positions.rows[k] != p;
      r := ApplyToPosition(p, t, price);
    }

    /** `updatePositionFromTransaction`: applies one saved transaction to its
        pair's position (creating it if needed) and refreshes the current
        value. When it fails, nothing stays changed: the transaction is rolled
        back, including a position created for it. */
    method UpdatePositionFromTransaction(t: Transaction) returns (r: Result<Position>)
      requires positions.Valid()
      modifies positions, positions.rows.Values
      ensures positions.Valid()
      ensures var outcome := PositionUpdate(old(positions.View()), t,
                               old(t.portfolioId in portfolioService.portfolios.rows),
                               old(t.stockId in stockService.stocks.rows), old(Price(t.stockId)));
        && (r.Success? <==> outcome.Success?)
        && (r.Failure? ==> r.error == outcome.error && positions.rows == old(positions.rows)
                           && positions.View() == old(positions.View()))
        && (r.Success? ==>
              && r.value.Key() == PositionKey(t.portfolioId, t.stockId)
              && positions.View() == old(positions.View())[PositionKey(t.portfolioId, t.stockId) := outcome.value])
    {
      var key := PositionKey(t.portfolioId, t.stockId);
      var existed := key in positions.rows;
      ghost var rowsBefore := positions.rows;
      ghost var before := positions.View();
      ghost var outcome := PositionUpdate(before, t,
                             t.portfolioId in portfolioService.portfolios.rows,
                             t.stockId in stockService.stocks.rows, Price(t.stockId));
      var found := GetOrCreatePosition(t.portfolioId, t.stockId);
      if found.Failure? {
        assert outcome == Failure(found.error);
        return Failure(found.error);
      }
      var p := found.value;
      ghost var start := StateOrEmpty(before, key);
      assert p.State() == start && positions.View() == before[key := start];
      var applied := ApplyStored(p, t, Price(t.stockId));
      if applied.Failure? {
        assert outcome == Failure(applied.error);
        UpdateTwice(before, key, start, start);
        assert positions.View() == before[key := start];
        if !existed {
          positions.Remove(key);
          UpdateThenRemove(before, key, start);
          UpdateThenRemove(rowsBefore, key, p);
        } else {
          UpdateSame(before, key);
        }
        return Failure(applied.error);
      }
      assert outcome == Success(p.State());
      UpdateTwice(before, key, start, p.State());
      r := Success(p);
    }

    /** `recalculatePosition`: gets or creates the pair's position, resets its
        quantity, cost and average, replays the pair's ledger entries in
        stored order, stores the replayed quantity and cost, re-derives the
        average when shares remain, and refreshes the current value. */
    method RecalculatePosition(portfolioId: Id, stockId: Id) returns (r: Result<Position>)
      requires positions.Valid()
      modifies positions, positions.rows.Values
      ensures positions.Valid()
      ensures var key := PositionKey(portfolioId, stockId);
        && (r.Failure? <==>
              key !in old(positions.rows)
              && old(portfolioId !in portfolioService.portfolios.rows || stockId !in stockService.stocks.rows))
        && (r.Failure? ==> positions.rows == old(positions.rows) && positions.View() == old(positions.View()))
        && (r.Failure? ==>
              r.error == if old(portfolioId !in portfolioService.portfolios.rows) then PortfolioNotFound else StockNotFound)
        && (key in old(positions.rows) ==> positions.rows == old(positions.rows))
        && (key !in old(positions.rows) && r.Success? ==> key in positions.rows && fresh(positions.rows[key]))
        && (r.Success? ==>
              && r.value.Key() == key
              && positions.View() == old(positions.View())[key :=
                   Recalculated(old(positions.View()), key, old(transactions.entries), old(Price(stockId)))])
    {
      var key := PositionKey(portfolioId, stockId);
      ghost var before := positions.View();
      var found := GetOrCreatePosition(portfolioId, stockId);
      if found.Failure? {
        assert positions.View() == before;
        return Failure(found.error);
      }
      var p := found.value;
      ghost var start := StateOrEmpty(before, key);
      assert p.State() == start && positions.View() == before[key := start];
      var txs := ForPair(transactions.entries, portfolioId, stockId);
      RecalculateStored(p, txs, Price(stockId));
      assert p.State() == Recalculated(before, key, transactions.entries, Price(stockId));
      UpdateTwice(before, key, start, p.State());
      r := Success(p);
    }

    /** The body of `recalculatePosition` on a stored position, seen through
        the repository: reset, replay, store and refresh. */
    method RecalculateStored(p: Position, txs: seq<Transaction>, price: Option<Cents>)
      requires positions.Valid() && p.Key() in positions.rows && positions.rows[p.Key()] == p
      modifies p
      ensures p.State() == RefreshValue(RecalcState(Replay(txs), old(p.State()).currentValue), price)
      ensures positions.View() == old(positions.View())[p.Key() := p.State()]
    {
      assert forall k | k in positions.rows && k != p.Key() :: positions.rows[k] != p;
      Replace(p, Totals(0, 0));
      var totals := ReplayLedger(p, txs);
      Replace(p, totals);
      p.UpdateCurrentValue(price);
    }

    /** The loop of `recalculatePosition`. A partial sale reduces the running
        cost by the average cost the position holds at that moment, which the
        reset has just made zero. */
    method ReplayLedger(p: Position, txs: seq<Transaction>) returns (totals: Totals)
      requires p.averageCost == ReplayAverageCost
      ensures totals == Replay(txs)
    {
      var totalCost, totalQuantity := 0, 0;
      var i := 0;
      while i < |txs|
        invariant 0 <= i <= |txs|
        invariant Totals(totalQuantity, totalCost) == Replay(txs[..i])
        decreases |txs| - i
      {
        var t := txs[i];
        if t.txType == Buy {
          totalQuantity := totalQuantity + t.quantity;
          totalCost := totalCost + t.totalAmount + t.fees;
        } else {
          totalQuantity := totalQuantity - t.quantity;
          if totalQuantity > 0 {
            var costReduction := p.averageCost * t.quantity;
            totalCost := totalCost - costReduction;
          } else if totalQuantity == 0 {
            totalCost := 0;
          }
        }
        assert txs[..i + 1][..i] == txs[..i];
        i := i + 1;
      }
      assert txs[..i] == txs;
      totals := Totals(totalQuantity, totalCost);
    }

    /** The stores `recalculatePosition` makes on the position's quantity,
        cost and average: quantity and cost from the totals, the average
        re-derived (half-up, two places) when shares remain and zero
        otherwise. The current value is not touched. */
    method Replace(p: Position, totals: Totals)
      modifies p
      ensures p.State() == RecalcState(totals, old(p.State()).currentValue)
    {
      p.quantity := totals.quantity;
      p.totalCost := totals.cost;
      if totals.quantity > 0 {
        p.averageCost := DivHalfUp(totals.cost, totals.quantity);
      } else {
        p.averageCost := 0;
      }
    }

    /** `updateCurrentValue` on a stored position, seen through the
        repository. */
    method RefreshStored(p: Position, price: Option<Cents>)
      requires positions.Valid() && p.Key() in positions.rows && positions.rows[p.Key()] == p
      modifies p
      ensures positions.View() == old(positions.View())[p.Key() := RefreshValue(old(p.State()), price)]
    {
      assert forall k | k in positions.rows && k != p.Key() :: positions.rows[k] != p;
      p.UpdateCurrentValue(price);
    }

    /** `updatePortfolioPositionValues`: refreshes the current value of every
        position of the portfolio from its stock's price; no other position
        and no quantity or cost changes. */
    method UpdatePortfolioPositionValues(portfolioId: Id)
      requires positions.Valid()
      modifies positions.rows.Values
      ensures positions.View() == RefreshedView(old(positions.View()), portfolioId, stockService.stocks.rows)
    {
      ghost var before := positions.View();
      var keys := set k | k in positions.rows && k.portfolioId == portfolioId;
      var remaining := keys;
      while remaining != {}
        invariant remaining <= keys
        invariant positions.View() == RefreshKeys(before, keys - remaining, stockService.stocks.rows)
        decreases remaining
      {
        var k :| k in remaining;
        ghost var done := keys - remaining;
        RefreshStored(positions.rows[k], Price(k.stockId));
        RefreshOneMore(before, done, k, stockService.stocks.rows);
        remaining := remaining - {k};
        assert keys - remaining == done + {k};
      }
      assert keys - remaining == PortfolioKeys(before, portfolioId);
      RefreshKeysOfPortfolio(before, portfolioId, stockService.stocks.rows);
    }
  }
}

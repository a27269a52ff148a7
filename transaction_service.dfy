/** `TransactionService`: records, amends and deletes ledger entries and keeps
    positions and portfolio totals in step with the ledger; also the
    read-only summary and "recent" views of a portfolio's ledger. */
module TransactionLedger {
  import opened Common
  import opened Money
  import opened Transactions
  import opened Positions
  import opened Portfolios
  import opened Stocks
  import opened Repositories
  import opened PositionAccounting
  import opened StockCatalog
  import opened PortfolioAggregation
  import opened PositionEngine

  // ---------------------------------------------------------------------
  // The summary fold

  /** The sum of `f` over a ledger, from the front. */
  function SumBy(txs: seq<Transaction>, f: Transaction -> int): int
    decreases |txs|
  {
    if txs == [] then 0 else f(txs[0]) + SumBy(txs[1..], f)
  }

  lemma {:induction false} SumByAppend(a: seq<Transaction>, b: seq<Transaction>, f: Transaction -> int)
    ensures SumBy(a + b, f) == SumBy(a, f) + SumBy(b, f)
    decreases |a|
  {
    if a != [] {
      calc {
        SumBy(a + b, f);
        f((a + b)[0]) + SumBy((a + b)[1..], f);
        { assert (a + b)[0] == a[0] && (a + b)[1..] == a[1..] + b; }
        f(a[0]) + SumBy(a[1..] + b, f);
        { SumByAppend(a[1..], b, f); }
        f(a[0]) + SumBy(a[1..], f) + SumBy(b, f);
        SumBy(a, f) + SumBy(b, f);
      }
    } else {
      assert a + b == b;
    }
  }

  /** Taking one entry out of a ledger takes its term out of the sum. */
  lemma SumByRemove(b: seq<Transaction>, j: int, f: Transaction -> int)
    requires 0 <= j < |b|
    ensures SumBy(b, f) == f(b[j]) + SumBy(b[..j] + b[j + 1..], f)
  {
    assert b == b[..j] + [b[j]] + b[j + 1..];
    SumByAppend(b[..j] + [b[j]], b[j + 1..], f);
    SumByAppend(b[..j], [b[j]], f);
    SumByAppend(b[..j], b[j + 1..], f);
    assert SumBy([b[j]], f) == f(b[j]) by {
      assert [b[j]][1..] == [];
    }
  }

  /** A sum over a ledger does not depend on the order of its entries. */
  lemma {:induction false} SumByPermutation(a: seq<Transaction>, b: seq<Transaction>, f: Transaction -> int)
    requires multiset(a) == multiset(b)
    ensures SumBy(a, f) == SumBy(b, f)
    decreases |a|
  {
    if a == [] {
      assert |b| == |multiset(b)| == 0;
    } else {
      var x := a[0];
      assert x in multiset(b);
      var j :| 0 <= j < |b| && b[j] == x;
      var rest := b[..j] + b[j + 1..];
      assert multiset(a[1..]) == multiset(a) - multiset{x} by {
        assert a == [x] + a[1..];
      }
      assert multiset(rest) == multiset(b) - multiset{x} by {
        assert b == b[..j] + [x] + b[j + 1..];
      }
      SumByPermutation(a[1..], rest, f);
      SumByRemove(b, j, f);
    }
  }

  function BuyAmount(t: Transaction): Cents { if t.txType == Buy then t.totalAmount else 0 }
  function SellAmount(t: Transaction): Cents { if t.txType == Sell then t.totalAmount else 0 }
  function Fee(t: Transaction): Cents { t.fees }
  function BuyCount(t: Transaction): int { if t.txType == Buy then 1 else 0 }
  function SellCount(t: Transaction): int { if t.txType == Sell then 1 else 0 }

  /** The summary map of `getTransactionSummary`. */
  datatype TransactionSummary = TransactionSummary(
    totalTransactions: nat,
    buyTransactions: int,
    sellTransactions: int,
    totalBuyAmount: Cents,
    totalSellAmount: Cents,
    totalFees: Cents,
    netInvested: Cents)

  /** Every entry is either a purchase or a sale. */
  lemma {:induction false} CountsPartition(txs: seq<Transaction>)
    ensures SumBy(txs, BuyCount) + SumBy(txs, SellCount) == |txs|
    decreases |txs|
  {
    if txs != [] {
      CountsPartition(txs[1..]);
    }
  }

  /** The summary of a portfolio's ledger: counts by type, amounts by type,
      all fees, and what was bought minus what was sold. */
  function Summarize(txs: seq<Transaction>): (s: TransactionSummary)
    ensures s.totalTransactions == |txs|
    ensures s.buyTransactions == SumBy(txs, BuyCount) && s.sellTransactions == SumBy(txs, SellCount)
    ensures s.totalBuyAmount == SumBy(txs, BuyAmount) && s.totalSellAmount == SumBy(txs, SellAmount)
    ensures s.totalFees == SumBy(txs, Fee)
    ensures s.buyTransactions + s.sellTransactions == s.totalTransactions
    ensures s.netInvested == s.totalBuyAmount - s.totalSellAmount
  {
    CountsPartition(txs);
    var buy, sell := SumBy(txs, BuyAmount), SumBy(txs, SellAmount);
    TransactionSummary(|txs|, SumBy(txs, BuyCount), SumBy(txs, SellCount), buy, sell, SumBy(txs, Fee), buy - sell)
  }

  /** The summary is the same in any order: the date ordering of the query
      does not matter. */
  lemma SummaryIgnoresOrder(a: seq<Transaction>, b: seq<Transaction>)
    requires multiset(a) == multiset(b)
    ensures Summarize(a) == Summarize(b)
  {
    assert |a| == |multiset(a)| == |multiset(b)| == |b|;
    SumByPermutation(a, b, BuyAmount);
    SumByPermutation(a, b, SellAmount);
    SumByPermutation(a, b, Fee);
    SumByPermutation(a, b, BuyCount);
    SumByPermutation(a, b, SellCount);
  }

  /** Cash that left the account for purchases (with their fees), minus cash
      that came in for sales (net of their fees). */
  function CashOut(t: Transaction): Cents {
    if t.txType == Buy then NetAmount(t) else -NetAmount(t)
  }

  /** The net invested amount plus all fees is exactly the net cash paid out
      over the ledger. */
  lemma {:induction false} NetInvestedPlusFees(txs: seq<Transaction>)
    ensures SumBy(txs, CashOut) == Summarize(txs).netInvested + Summarize(txs).totalFees
    decreases |txs|
  {
    if txs != [] {
      NetInvestedPlusFees(txs[1..]);
    }
  }

  /** `stream().limit(limit)`: the first `limit` entries (all of them when
      there are fewer); a negative limit is refused. */
  function Limit(txs: seq<Transaction>, limit: int): (r: Result<seq<Transaction>>)
    ensures r.Failure? <==> limit < 0
    ensures r.Failure? ==> r.error == NegativeLimit
    ensures r.Success? ==>
      && |r.value| <= limit && |r.value| <= |txs|
      && (|r.value| == limit || |r.value| == |txs|)
      && r.value == txs[..|r.value|]
  {
    if limit < 0 then Failure(NegativeLimit)
    else if limit < |txs| then Success(txs[..limit])
    else Success(txs)
  }

  // ---------------------------------------------------------------------
  // The stores, and what each operation does to them

  /** Everything the service reads or changes: the ledger and its id counter,
      the portfolios, the stock catalog and the position states. */
  datatype Books = Books(
    entries: seq<Transaction>,
    nextId: Id,
    portfolios: map<Id, Portfolio>,
    stocks: map<Id, Stock>,
    positions: map<PositionKey, PositionState>)

  /** The entry `createTransaction` saves for a draft: the total amount is
      price times quantity only when it is missing, the date is `now` only
      when it is missing. */
  function Filled(d: TransactionDraft, id: Id, now: Timestamp): (t: Transaction)
    ensures t.id == id && t.portfolioId == d.portfolioId && t.stockId == d.stockId
    ensures t.txType == d.txType && t.quantity == d.quantity
    ensures t.pricePerShare == d.pricePerShare && t.fees == d.fees
    ensures d.totalAmount.Some? ==> t.totalAmount == d.totalAmount.value
    ensures d.totalAmount.None? ==> t.totalAmount == d.pricePerShare * d.quantity
    ensures d.date.Some? ==> t.date == d.date.value
    ensures d.date.None? ==> t.date == now
  {
    Transaction(id, d.portfolioId, d.stockId, d.txType, d.quantity, d.pricePerShare,
                Overwrite(d.pricePerShare * d.quantity, d.totalAmount), d.fees, Overwrite(now, d.date))
  }

  /** A draft meeting the declared constraints yields a saved entry meeting
      them: the filled-in total amount is at least one cent. */
  lemma FilledWellFormed(d: TransactionDraft, id: Id, now: Timestamp)
    requires DraftWellFormed(d)
    ensures WellFormed(Filled(d, id, now))
  {
    MulMonotone(d.quantity, 1, d.pricePerShare);
  }

  /** The shares `validateSellTransaction` reports as available. */
  function Available(positions: map<PositionKey, PositionState>, key: PositionKey): int {
    if key in positions then positions[key].quantity else 0
  }

  /** The checks `createTransaction` makes before saving anything, in order:
      the portfolio, the stock, and for a SELL a stored position holding at
      least the quantity sold. */
  function CreateRefusal(b: Books, d: TransactionDraft): (r: Option<Error>)
    ensures r == Some(PortfolioNotFound) <==> d.portfolioId !in b.portfolios
    ensures r == Some(StockNotFound) <==> d.portfolioId in b.portfolios && d.stockId !in b.stocks
    ensures r == Some(InsufficientShares(Available(b.positions, PositionKey(d.portfolioId, d.stockId)))) <==>
      && d.portfolioId in b.portfolios && d.stockId in b.stocks && d.txType == Sell
      && (PositionKey(d.portfolioId, d.stockId) !in b.positions
          || b.positions[PositionKey(d.portfolioId, d.stockId)].quantity < d.quantity)
    ensures r.None? <==>
      && d.portfolioId in b.portfolios && d.stockId in b.stocks
      && (d.txType == Sell ==>
            PositionKey(d.portfolioId, d.stockId) in b.positions
            && b.positions[PositionKey(d.portfolioId, d.stockId)].quantity >= d.quantity)
  {
    var key := PositionKey(d.portfolioId, d.stockId);
    if d.portfolioId !in b.portfolios then Some(PortfolioNotFound)
    else if d.stockId !in b.stocks then Some(StockNotFound)
    else if d.txType == Sell && (key !in b.positions || b.positions[key].quantity < d.quantity) then
      Some(InsufficientShares(Available(b.positions, key)))
    else None
  }

  /** `createTransaction` on the stores: the checks, then the ledger write,
      the position update and the portfolio refresh. A failure anywhere
      leaves the stores as they were. */
  ghost function CreateOutcome(b: Books, d: TransactionDraft, now: Timestamp): Result<Books>
  {
    var refusal := CreateRefusal(b, d);
    if refusal.Some? then Failure(refusal.value)
    else
      var t := Filled(d, b.nextId, now);
      var key := PositionKey(d.portfolioId, d.stockId);
      match PositionUpdate(b.positions, t, true, true, PriceOf(b.stocks, d.stockId))
      case Failure(e) => Failure(e)
      case Success(s) =>
        var positions := b.positions[key := s];
        Success(b.(entries := b.entries + [t], nextId := b.nextId + 1, positions := positions,
                   portfolios := b.portfolios[d.portfolioId :=
                     WithTotals(b.portfolios[d.portfolioId], positions, d.portfolioId)]))
  }

  /** How `createTransaction` leaves the stores `before` as `after` with the
      result `r`: as `CreateOutcome` says on success; on failure, unchanged
      but for the id counter, which has moved on exactly when an entry was
      saved and then rolled back. */
  ghost predicate CreateReport(before: Books, after: Books, d: TransactionDraft, now: Timestamp, r: Result<Transaction>)
  {
    var outcome := CreateOutcome(before, d, now);
    && (r.Success? <==> outcome.Success?)
    && (r.Success? ==> r.value == Filled(d, before.nextId, now) && after == outcome.value)
    && (r.Failure? ==>
          && r.error == outcome.error
          && after == before.(nextId := after.nextId)
          && after.nextId == before.nextId + (if CreateRefusal(before, d).None? then 1 else 0))
  }

  /** A draft refused by the checks leaves the stores exactly as they were. */
  lemma RefusedDraftChangesNothing(b: Books, d: TransactionDraft, now: Timestamp)
    requires CreateRefusal(b, d).Some?
    ensures CreateReport(b, b, d, now, Failure(CreateRefusal(b, d).value))
  {
  }

  /** How `deleteTransaction` leaves the stores: as `DeleteOutcome` says on
      success, unchanged on failure. */
  ghost predicate DeleteReport(before: Books, after: Books, id: Id, r: Result<()>)
  {
    var outcome := DeleteOutcome(before, id);
    && (r.Success? <==> outcome.Success?)
    && (r.Failure? ==> r.error == outcome.error && after == before)
    && (r.Success? ==> after == outcome.value)
  }

  /** A sale that passed validation is never refused by the position update,
      and a recorded transaction lands at the end of the ledger under a fresh
      id. */
  lemma CreateAfterValidation(b: Books, d: TransactionDraft, now: Timestamp)
    requires CreateRefusal(b, d).None? && d.txType == Sell
    ensures CreateOutcome(b, d, now).Success?
    ensures CreateOutcome(b, d, now).value.entries == b.entries + [Filled(d, b.nextId, now)]
  {
  }

  /** Positions that hold nothing have no cost: recording a well-formed
      transaction keeps this true for every position, and then a purchase is
      never refused either. */
  lemma CreateKeepsPositionsConsistent(b: Books, d: TransactionDraft, now: Timestamp)
    requires DraftWellFormed(d)
    requires forall k | k in b.positions :: Consistent(b.positions[k])
    requires CreateRefusal(b, d).None?
    ensures CreateOutcome(b, d, now).Success?
    ensures forall k | k in CreateOutcome(b, d, now).value.positions ::
      Consistent(CreateOutcome(b, d, now).value.positions[k])
  {
    var t := Filled(d, b.nextId, now);
    FilledWellFormed(d, b.nextId, now);
    var key := PositionKey(d.portfolioId, d.stockId);
    var s := StateOrEmpty(b.positions, key);
    assert Consistent(s);
    IncrementalKeepsConsistent(s, [t]);
    assert [t][..0] == [];
    assert Incremental(s, [t]) == ApplyTransaction(s, t);
  }

  /** `deleteTransaction` on the stores: the entry must exist; it is removed,
      its pair's position is rebuilt from the remaining ledger, and its
      portfolio's totals are refreshed. Rebuilding fails for a missing
      position of an unknown portfolio or stock, refreshing for an unknown
      portfolio; either leaves the stores as they were. */
  ghost function DeleteOutcome(b: Books, id: Id): Result<Books>
  {
    if !(exists i :: 0 <= i < |b.entries| && b.entries[i].id == id) then Failure(TransactionNotFound)
    else
      var t :| t in b.entries && t.id == id;
      DeleteEntry(b, t)
  }

  /** `deleteTransaction` once the entry `t` has been found. */
  ghost function DeleteEntry(b: Books, t: Transaction): Result<Books>
  {
    var key := PositionKey(t.portfolioId, t.stockId);
    if t.portfolioId !in b.portfolios then Failure(PortfolioNotFound)
    else if key !in b.positions && t.stockId !in b.stocks then Failure(StockNotFound)
    else
      var entries := WithoutId(b.entries, t.id);
      var positions := b.positions[key := Recalculated(b.positions, key, entries, PriceOf(b.stocks, t.stockId))];
      Success(b.(entries := entries, positions := positions,
                 portfolios := b.portfolios[t.portfolioId :=
                   WithTotals(b.portfolios[t.portfolioId], positions, t.portfolioId)]))
  }

  /** After a deletion the entry is gone and every other entry is still
      there. */
  lemma DeleteRemovesOnlyTheEntry(b: Books, id: Id)
    requires DeleteOutcome(b, id).Success?
    ensures forall t :: t in DeleteOutcome(b, id).value.entries <==> t in b.entries && t.id != id
  {
  }

  /** `updateTransaction` on the ledger: only the fees change, and only when
      new fees are supplied. */
  function AmendFees(t: Transaction, fees: Option<Cents>): (r: Transaction)
    ensures r.fees == Overwrite(t.fees, fees)
    ensures r.(fees := t.fees) == t
  {
    t.(fees := Overwrite(t.fees, fees))
  }

  /** The draft `createBuyTransaction` and `createSellTransaction` build: the
      five-argument constructor, with the fees replaced when some are given. */
  function OrderDraft(portfolioId: Id, stockId: Id, txType: TransactionType, quantity: int,
                      pricePerShare: Cents, fees: Option<Cents>): (d: TransactionDraft)
    ensures d.portfolioId == portfolioId && d.stockId == stockId
    ensures d.txType == txType && d.quantity == quantity && d.pricePerShare == pricePerShare
    ensures d.totalAmount == Some(pricePerShare * quantity) && d.date == None
    ensures d.fees == (if fees.Some? then fees.value else 0)
  {
    NewTransaction(portfolioId, stockId, txType, quantity, pricePerShare).(fees := Overwrite(0, fees))
  }

  // ---------------------------------------------------------------------
  // The service

  class TransactionService {
    const transactions: TransactionRepository
    const portfolioService: PortfolioService
    const stockService: StockService
    const positionService: PositionService

    constructor (transactions: TransactionRepository, portfolioService: PortfolioService,
                 stockService: StockService, positionService: PositionService)
      ensures this.transactions == transactions && this.portfolioService == portfolioService
      ensures this.stockService == stockService && this.positionService == positionService
    {
      this.transactions := transactions;
      this.portfolioService := portfolioService;
      this.stockService := stockService;
      this.positionService := positionService;
    }

    /** The services share their repositories, as the Spring context wires
        them, and every repository keeps its own invariant. */
    ghost predicate Valid()
      reads this, transactions, portfolioService.portfolios, positionService.positions
    {
      && positionService.transactions == transactions
      && positionService.portfolioService == portfolioService
      && positionService.stockService == stockService
      && portfolioService.positions == positionService.positions
      && transactions.Valid() && portfolioService.portfolios.Valid() && positionService.positions.Valid()
    }

    ghost function State(): Books
      reads this, transactions, portfolioService.portfolios, stockService.stocks,
            positionService.positions, positionService.positions.rows.Values
    {
      Books(transactions.entries, transactions.nextId, portfolioService.portfolios.rows,
            stockService.stocks.rows, positionService.positions.View())
    }

    /** `validateSellTransaction`: a sale needs a stored position holding at
        least the quantity sold; the error reports the shares available. */
    method ValidateSellTransaction(portfolioId: Id, stockId: Id, quantity: int) returns (r: Result<()>)
      ensures var key := PositionKey(portfolioId, stockId);
        && (r.Failure? <==> key !in positionService.positions.View() || positionService.positions.View()[key].quantity < quantity)
        && (r.Failure? ==> r.error == InsufficientShares(Available(positionService.positions.View(), key)))
    {
      var position := positionService.GetPositionByPortfolioAndStock(portfolioId, stockId);
      if position.None? || position.value.quantity < quantity {
        return Failure(InsufficientShares(if position.Some? then position.value.quantity else 0));
      }
      r := Success(());
    }

    /** `getTransactionById`: the entry with the id, or "Transaction not
        found". */
    method GetTransactionById(id: Id) returns (r: Result<Transaction>)
      requires Valid()
      ensures r.Failure? <==> forall i | 0 <= i < |transactions.entries| :: transactions.entries[i].id != id
      ensures r.Failure? ==> r.error == TransactionNotFound
      ensures r.Success? ==> r.value in transactions.entries && r.value.id == id
    {
      var found := transactions.FindById(id);
      if found.None? {
        return Failure(TransactionNotFound);
      }
      r := Success(found.value);
    }

    /** `createTransaction`: checks the portfolio, the stock and, for a sale,
        the shares held; fills in the total amount and the date; saves the
        entry under the next id; updates the pair's position and the
        portfolio's totals. When it fails nothing it wrote remains, except
        that an id handed out to the rolled-back entry stays used. */
    method CreateTransaction(d: TransactionDraft, now: Timestamp) returns (r: Result<Transaction>)
      requires Valid()
      modifies transactions, portfolioService.portfolios, positionService.positions,
               positionService.positions.rows.Values
      ensures Valid()
      ensures CreateReport(old(State()), State(), d, now, r)
    {
      ghost var b := State();
      var refusal := CheckDraft(d);
      assert State() == b;
      if refusal.Some? {
        RefusedDraftChangesNothing(b, d, now);
        return Failure(refusal.value);
      }
      r := Record(d, now);
    }

    /** The checks `createTransaction` makes before it writes anything: the
        portfolio, the stock, and for a sale the shares held. */
    method CheckDraft(d: TransactionDraft) returns (refusal: Option<Error>)
      requires Valid()
      ensures refusal == CreateRefusal(State(), d)
    {
      var portfolio := portfolioService.GetPortfolioById(d.portfolioId);
      if portfolio.Failure? {
        return Some(portfolio.error);
      }
      var stock := stockService.GetStockById(d.stockId);
      if stock.Failure? {
        return Some(stock.error);
      }
      if d.txType == Sell {
        var valid := ValidateSellTransaction(d.portfolioId, d.stockId, d.quantity);
        if valid.Failure? {
          return Some(valid.error);
        }
      }
      refusal := None;
    }

    /** The rest of `createTransaction` once the checks have passed: fill in
        the total amount and the date, save, update the position, refresh the
        portfolio; a refused position update rolls the saved entry back. */
    method Record(d: TransactionDraft, now: Timestamp) returns (r: Result<Transaction>)
      requires Valid() && CreateRefusal(State(), d).None?
      modifies transactions, portfolioService.portfolios, positionService.positions,
               positionService.positions.rows.Values
      ensures Valid()
      ensures CreateReport(old(State()), State(), d, now, r)
    {
      ghost var before := State();
      var totalAmount := if d.totalAmount.Some? then d.totalAmount.value else d.pricePerShare * d.quantity;
      var date := if d.date.Some? then d.date.value else now;
      var t := Transaction(0, d.portfolioId, d.stockId, d.txType, d.quantity, d.pricePerShare, totalAmount, d.fees, date);
      var saved, updated := SaveAndApply(t);
      assert saved == Filled(d, before.nextId, now);
      if updated.Failure? {
        return Failure(updated.error);
      }
      ghost var outcome := PositionUpdate(before.positions, saved, true, true, PriceOf(before.stocks, t.stockId));
      ghost var positions := before.positions[PositionKey(t.portfolioId, t.stockId) := outcome.value];
      ghost var applied := before.(entries := before.entries + [saved], nextId := before.nextId + 1, positions := positions);
      assert State() == applied;
      RefreshPortfolio(t.portfolioId);
      r := Success(saved);
    }

    /** `updatePortfolioValues` for a portfolio known to exist. */
    method RefreshPortfolio(portfolioId: Id)
      requires Valid() && portfolioId in portfolioService.portfolios.rows
      modifies portfolioService.portfolios
      ensures Valid()
      ensures State() == old(State()).(portfolios := old(State()).portfolios[portfolioId :=
                           WithTotals(old(State()).portfolios[portfolioId], old(State()).positions, portfolioId)])
    {
      var refreshed := portfolioService.UpdatePortfolioValues(portfolioId);
    }

    /** Saving the entry and updating its position: a refused update rolls
        the entry back. */
    method SaveAndApply(t: Transaction) returns (saved: Transaction, r: Result<()>)
      requires Valid()
      requires t.portfolioId in portfolioService.portfolios.rows && t.stockId in stockService.stocks.rows
      modifies transactions, positionService.positions, positionService.positions.rows.Values
      ensures Valid()
      ensures saved == t.(id := old(transactions.nextId))
      ensures var outcome := PositionUpdate(old(State()).positions, saved, true, true, PriceOf(old(State()).stocks, t.stockId));
        && (r.Success? <==> outcome.Success?)
        && (r.Failure? ==> r.error == outcome.error && State() == old(State()).(nextId := old(transactions.nextId) + 1))
        && (r.Success? ==>
              State() == old(State()).(entries := old(transactions.entries) + [saved], nextId := old(transactions.nextId) + 1,
                                       positions := old(State()).positions[PositionKey(t.portfolioId, t.stockId) := outcome.value]))
    {
      ghost var before := State();
      var entriesBefore := transactions.entries;
      saved := transactions.Add(t);
      ghost var added := before.(entries := before.entries + [saved], nextId := before.nextId + 1);
      assert State() == added;
      var updated := positionService.UpdatePositionFromTransaction(saved);
      if updated.Failure? {
        assert State() == added;
        RestoreLedger(entriesBefore);
        return saved, Failure(updated.error);
      }
      r := Success(());
    }

    /** `updateTransaction`: only the fees of the entry change, and only when
        new fees are given; positions and portfolios are left as they are. */
    method UpdateTransaction(id: Id, fees: Option<Cents>) returns (r: Result<Transaction>)
      requires Valid()
      modifies transactions
      ensures Valid() && transactions.nextId == old(transactions.nextId)
      ensures r.Failure? <==> forall i | 0 <= i < |old(transactions.entries)| :: old(transactions.entries)[i].id != id
      ensures r.Failure? ==> r.error == TransactionNotFound && transactions.entries == old(transactions.entries)
      ensures r.Success? ==>
        && r.value.id == id && r.value in transactions.entries
        && |transactions.entries| == |old(transactions.entries)|
        && forall i | 0 <= i < |transactions.entries| ::
             transactions.entries[i] ==
               if old(transactions.entries)[i].id == id then AmendFees(old(transactions.entries)[i], fees)
               else old(transactions.entries)[i]
    {
      var found := GetTransactionById(id);
      if found.Failure? {
        return Failure(found.error);
      }
      var t := found.value;
      var amended := AmendFees(t, fees);
      ghost var before := transactions.entries;
      forall i | 0 <= i < |before| && before[i].id == id
        ensures before[i] == t
      {
        SameIdSameEntry(before, before[i], t);
      }
      transactions.Update(amended);
      ghost var k :| 0 <= k < |before| && before[k] == t;
      assert transactions.entries[k] == amended;
      r := Success(amended);
    }

    /** `deleteTransaction`: removes the entry, rebuilds its pair's position
        from the ledger that remains and refreshes its portfolio's totals; a
        failure rolls every write back. */
    method DeleteTransaction(id: Id) returns (r: Result<()>)
      requires Valid()
      modifies transactions, portfolioService.portfolios, positionService.positions,
               positionService.positions.rows.Values
      ensures Valid()
      ensures DeleteReport(old(State()), State(), id, r)
    {
      ghost var before := State();
      var found := GetTransactionById(id);
      assert State() == before;
      if found.Failure? {
        return Failure(found.error);
      }
      var t := found.value;
      forall t' | t' in transactions.entries && t'.id == id
        ensures t' == t
      {
        SameIdSameEntry(transactions.entries, t', t);
      }
      r := Expunge(t);
    }

    /** `deleteTransaction` once the entry has been found. */
    method Expunge(t: Transaction) returns (r: Result<()>)
      requires Valid() && t in transactions.entries
      modifies transactions, portfolioService.portfolios, positionService.positions,
               positionService.positions.rows.Values
      ensures Valid()
      ensures var outcome := DeleteEntry(old(State()), t);
        && (r.Success? <==> outcome.Success?)
        && (r.Failure? ==> r.error == outcome.error && State() == old(State()))
        && (r.Success? ==> State() == outcome.value)
    {
      ghost var before := State();
      var key := PositionKey(t.portfolioId, t.stockId);
      var stateBefore := if key in positionService.positions.rows then positionService.positions.rows[key].State() else Empty;
      var entriesBefore := transactions.entries;
      var rebuilt := DeleteAndRebuild(t);
      if rebuilt.Failure? {
        assert DeleteEntry(before, t) == Failure(rebuilt.error);
        return Failure(rebuilt.error);
      }
      ghost var deleted := before.(entries := WithoutId(before.entries, t.id),
        positions := before.positions[key := Recalculated(before.positions, key, WithoutId(before.entries, t.id),
                                                          PriceOf(before.stocks, t.stockId))]);
      r := RefreshOrRollBack(t.portfolioId, before, deleted, entriesBefore, key, stateBefore);
      if r.Failure? {
        assert DeleteEntry(before, t) == Failure(PortfolioNotFound);
        return;
      }
      assert DeleteEntry(before, t) == Success(State());
    }

    /** The last step of `deleteTransaction`: refresh the portfolio's totals,
        or, for an unknown portfolio, roll the ledger and the rebuilt
        position back to `entries` and `s`. */
    method RefreshOrRollBack(portfolioId: Id, ghost before: Books, ghost deleted: Books,
                             entries: seq<Transaction>, key: PositionKey, s: PositionState)
      returns (r: Result<()>)
      requires Valid() && key in positionService.positions.rows
      requires (forall i | 0 <= i < |entries| :: entries[i].id < transactions.nextId) && IdsUnique(entries)
      requires State() == deleted
      requires deleted == before.(entries := deleted.entries, positions := deleted.positions)
      requires entries == before.entries && key in before.positions ==> s == before.positions[key]
      requires deleted.positions == before.positions[key := deleted.positions[key]]
      modifies transactions, portfolioService.portfolios, positionService.positions.rows[key]
      ensures Valid()
      ensures r.Failure? <==> portfolioId !in deleted.portfolios
      ensures r.Failure? ==> r.error == PortfolioNotFound
      ensures r.Failure? && entries == before.entries && key in before.positions ==> State() == before
      ensures r.Success? ==>
        State() == deleted.(portfolios := deleted.portfolios[portfolioId :=
                     WithTotals(deleted.portfolios[portfolioId], deleted.positions, portfolioId)])
    {
      var refreshed := portfolioService.UpdatePortfolioValues(portfolioId);
      if refreshed.Failure? {
        RollBack(entries, key, s);
        if entries == before.entries && key in before.positions {
          UpdateTwice(before.positions, key, deleted.positions[key], s);
          UpdateSame(before.positions, key);
        }
        return Failure(refreshed.error);
      }
      r := Success(());
    }

    /** The rollback of a `deleteTransaction` that failed after rebuilding
        the position: the ledger and that position get their earlier
        contents back. */
    method RollBack(entries: seq<Transaction>, key: PositionKey, s: PositionState)
      requires Valid() && key in positionService.positions.rows
      requires (forall i | 0 <= i < |entries| :: entries[i].id < transactions.nextId) && IdsUnique(entries)
      modifies transactions, positionService.positions.rows[key]
      ensures Valid()
      ensures State() == old(State()).(entries := entries, positions := old(State()).positions[key := s])
    {
      RestoreLedger(entries);
      positionService.positions.RestoreRow(key, s);
    }

    /** Rolling the ledger back to `entries`; nothing else changes. */
    method RestoreLedger(entries: seq<Transaction>)
      requires Valid()
      requires (forall i | 0 <= i < |entries| :: entries[i].id < transactions.nextId) && IdsUnique(entries)
      modifies transactions
      ensures Valid()
      ensures State() == old(State()).(entries := entries)
    {
      transactions.Restore(entries);
    }

    /** Removing the entry and rebuilding its pair's position from the
        ledger that remains; a refused rebuild puts the entry back. */
    method DeleteAndRebuild(t: Transaction) returns (r: Result<()>)
      requires Valid() && t in transactions.entries
      modifies transactions, positionService.positions, positionService.positions.rows.Values
      ensures Valid()
      ensures var key := PositionKey(t.portfolioId, t.stockId);
        && (r.Failure? <==>
              key !in old(State()).positions
              && (t.portfolioId !in old(State()).portfolios || t.stockId !in old(State()).stocks))
        && (r.Failure? ==>
              && r.error == (if t.portfolioId !in old(State()).portfolios then PortfolioNotFound else StockNotFound)
              && State() == old(State()))
        && (r.Success? ==>
              && key in positionService.positions.rows
              && (key in old(positionService.positions.rows) ==> positionService.positions.rows == old(positionService.positions.rows))
              && (key !in old(positionService.positions.rows) ==> fresh(positionService.positions.rows[key]))
              && State() == old(State()).(entries := WithoutId(old(transactions.entries), t.id),
                   positions := old(State()).positions[key := Recalculated(old(State()).positions, key,
                                  WithoutId(old(transactions.entries), t.id), PriceOf(old(State()).stocks, t.stockId))]))
    {
      ghost var before := State();
      var entriesBefore := transactions.entries;
      transactions.Delete(t.id);
      ghost var deleted := before.(entries := WithoutId(before.entries, t.id));
      assert State() == deleted;
      var recalculated := positionService.RecalculatePosition(t.portfolioId, t.stockId);
      if recalculated.Failure? {
        assert State() == deleted;
        RestoreLedger(entriesBefore);
        return Failure(recalculated.error);
      }
      r := Success(());
    }

    /** `createBuyTransaction`: the portfolio and the stock must exist; the
        purchase is then recorded as `createTransaction` records it. */
    method CreateBuyTransaction(portfolioId: Id, stockId: Id, quantity: int, pricePerShare: Cents,
                                fees: Option<Cents>, now: Timestamp) returns (r: Result<Transaction>)
      requires Valid()
      modifies transactions, portfolioService.portfolios, positionService.positions,
               positionService.positions.rows.Values
      ensures Valid()
      ensures CreateReport(old(State()), State(), OrderDraft(portfolioId, stockId, Buy, quantity, pricePerShare, fees), now, r)
    {
      ghost var order := OrderDraft(portfolioId, stockId, Buy, quantity, pricePerShare, fees);
      ghost var before := State();
      var portfolio := portfolioService.GetPortfolioById(portfolioId);
      var stock := stockService.GetStockById(stockId);
      assert State() == before;
      if portfolio.Failure? {
        RefusedDraftChangesNothing(before, order, now);
        return Failure(portfolio.error);
      }
      if stock.Failure? {
        RefusedDraftChangesNothing(before, order, now);
        return Failure(stock.error);
      }
      var d := NewTransaction(portfolioId, stockId, Buy, quantity, pricePerShare);
      if fees.Some? {
        d := d.(fees := fees.value);
      }
      assert d == order;
      r := CreateTransaction(d, now);
    }

    /** `createSellTransaction`: as `createBuyTransaction`, for a sale. */
    method CreateSellTransaction(portfolioId: Id, stockId: Id, quantity: int, pricePerShare: Cents,
                                 fees: Option<Cents>, now: Timestamp) returns (r: Result<Transaction>)
      requires Valid()
      modifies transactions, portfolioService.portfolios, positionService.positions,
               positionService.positions.rows.Values
      ensures Valid()
      ensures CreateReport(old(State()), State(), OrderDraft(portfolioId, stockId, Sell, quantity, pricePerShare, fees), now, r)
    {
      ghost var order := OrderDraft(portfolioId, stockId, Sell, quantity, pricePerShare, fees);
      ghost var before := State();
      var portfolio := portfolioService.GetPortfolioById(portfolioId);
      var stock := stockService.GetStockById(stockId);
      assert State() == before;
      if portfolio.Failure? {
        RefusedDraftChangesNothing(before, order, now);
        return Failure(portfolio.error);
      }
      if stock.Failure? {
        RefusedDraftChangesNothing(before, order, now);
        return Failure(stock.error);
      }
      var d := NewTransaction(portfolioId, stockId, Sell, quantity, pricePerShare);
      if fees.Some? {
        d := d.(fees := fees.value);
      }
      assert d == order;
      r := CreateTransaction(d, now);
    }

    /** `getTransactionSummary`: counts by type, the amounts bought and sold,
        the fees, and the net amount invested over the portfolio's ledger. */
    method GetTransactionSummary(portfolioId: Id) returns (s: TransactionSummary)
      ensures s == Summarize(ForPortfolio(transactions.entries, portfolioId))
    {
      var txs := ForPortfolio(transactions.entries, portfolioId);
      var buyCount := SumBy(txs, BuyCount);
      var sellCount := SumBy(txs, SellCount);
      var totalBuyAmount, totalSellAmount, totalFees := 0, 0, 0;
      var i := 0;
      while i < |txs|
        invariant 0 <= i <= |txs|
        invariant totalBuyAmount + SumBy(txs[i..], BuyAmount) == SumBy(txs, BuyAmount)
        invariant totalSellAmount + SumBy(txs[i..], SellAmount) == SumBy(txs, SellAmount)
        invariant totalFees + SumBy(txs[i..], Fee) == SumBy(txs, Fee)
      {
        assert txs[i..][1..] == txs[i + 1..];
        if txs[i].txType == Buy {
          totalBuyAmount := totalBuyAmount + txs[i].totalAmount;
        } else {
          totalSellAmount := totalSellAmount + txs[i].totalAmount;
        }
        totalFees := totalFees + txs[i].fees;
        i := i + 1;
      }
      s := TransactionSummary(|txs|, buyCount, sellCount, totalBuyAmount, totalSellAmount, totalFees,
                              totalBuyAmount - totalSellAmount);
    }

    /** `getRecentTransactions`: the first `limit` entries of the portfolio's
        ledger; a negative limit is refused. */
    method GetRecentTransactions(portfolioId: Id, limit: int) returns (r: Result<seq<Transaction>>)
      ensures r == Limit(ForPortfolio(transactions.entries, portfolioId), limit)
      ensures r.Success? ==> forall t | t in r.value :: t in transactions.entries && t.portfolioId == portfolioId
    {
      var txs := ForPortfolio(transactions.entries, portfolioId);
      if limit < 0 {
        return Failure(NegativeLimit);
      }
      r := Success(if limit < |txs| then txs[..limit] else txs);
    }
  }
}

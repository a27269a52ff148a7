/** The arithmetic of `PositionService`: the incremental update a single
    transaction makes to a position, and the replay of a portfolio/stock
    ledger that `recalculatePosition` performs. Both are pure functions of
    the position's state; the service applies them to `Position` objects. */
module PositionAccounting {
  import opened Common
  import opened Money
  import opened Transactions
  import opened Positions

  // ---------------------------------------------------------------------
  // Incremental update (updatePositionFromTransaction)

  /** One transaction applied to a position, before its current value is
      refreshed. A BUY adds amount and fees to the cost and re-derives the
      average (half-up, two places); it divides by the new quantity, which
      fails when that quantity is zero. A SELL of more than is held fails; a
      SELL of everything zeroes the position; a partial SELL removes
      `averageCost * quantity` from the cost and keeps the average. */
  function ApplyTransaction(s: PositionState, t: Transaction): (r: Result<PositionState>)
    ensures r.Success? ==> r.value.currentValue == s.currentValue
    ensures t.txType == Buy ==>
      && (r.Failure? <==> s.quantity + t.quantity == 0)
      && (r.Failure? ==> r.error == DivisionByZero)
      && (r.Success? ==>
            && r.value.quantity == s.quantity + t.quantity
            && r.value.totalCost == s.totalCost + NetAmount(t)
            && IsHalfUpQuotient(r.value.totalCost, r.value.quantity, r.value.averageCost))
    ensures t.txType == Sell ==>
      && (r.Failure? <==> t.quantity > s.quantity)
      && (r.Failure? ==> r.error == CannotSellMoreThanOwned)
      && (r.Success? ==> r.value.quantity == s.quantity - t.quantity)
    ensures t.txType == Sell && r.Success? && r.value.quantity == 0 ==>
      r.value.totalCost == 0 && r.value.averageCost == 0
    ensures t.txType == Sell && r.Success? && r.value.quantity > 0 ==>
      r.value.averageCost == s.averageCost && r.value.totalCost == s.totalCost - s.averageCost * t.quantity
  {
    match t.txType
    case Buy =>
      var newQuantity := s.quantity + t.quantity;
      if newQuantity == 0 then Failure(DivisionByZero)
      else
        var newTotalCost := s.totalCost + t.totalAmount + t.fees;
        Success(s.(quantity := newQuantity, totalCost := newTotalCost,
                   averageCost := DivHalfUp(newTotalCost, newQuantity)))
    case Sell =>
      var newQuantity := s.quantity - t.quantity;
      if newQuantity < 0 then Failure(CannotSellMoreThanOwned)
      else if newQuantity == 0 then Success(s.(quantity := 0, totalCost := 0, averageCost := 0))
      else Success(s.(quantity := newQuantity, totalCost := s.totalCost - s.averageCost * t.quantity))
  }

  /** A history of transactions applied one after another, stopping at the
      first failure. */
  function Incremental(s: PositionState, txs: seq<Transaction>): Result<PositionState>
    decreases |txs|
  {
    if txs == [] then Success(s)
    else
      match Incremental(s, txs[..|txs| - 1])
      case Failure(e) => Failure(e)
      case Success(prev) => ApplyTransaction(prev, txs[|txs| - 1])
  }

  /** A position that holds nothing has no cost and no average, and it never
      holds a negative quantity. */
  predicate Consistent(s: PositionState) {
    s.quantity >= 0 && (s.quantity == 0 ==> s.totalCost == 0 && s.averageCost == 0)
  }

  predicate AllWellFormed(txs: seq<Transaction>) {
    forall i | 0 <= i < |txs| :: WellFormed(txs[i])
  }

  /** Starting from a consistent position, incremental updates by well-formed
      transactions keep it consistent, and the only way they can fail is an
      oversell: the division by zero of a BUY is then unreachable. */
  lemma {:induction false} IncrementalKeepsConsistent(s: PositionState, txs: seq<Transaction>)
    requires Consistent(s) && AllWellFormed(txs)
    ensures Incremental(s, txs).Success? ==> Consistent(Incremental(s, txs).value)
    ensures Incremental(s, txs).Failure? ==> Incremental(s, txs).error == CannotSellMoreThanOwned
    decreases |txs|
  {
    if txs != [] {
      var prefix := txs[..|txs| - 1];
      assert AllWellFormed(prefix) by {
        forall i | 0 <= i < |prefix| ensures WellFormed(prefix[i]) {
          assert prefix[i] == txs[i];
        }
      }
      IncrementalKeepsConsistent(s, prefix);
      assert WellFormed(txs[|txs| - 1]);
    }
  }

  /** A BUY raises the cost basis by exactly the transaction's net amount. */
  lemma BuyAddsNetAmount(s: PositionState, t: Transaction)
    requires t.txType == Buy && WellFormed(t) && s.quantity >= 0
    ensures ApplyTransaction(s, t).Success?
    ensures ApplyTransaction(s, t).value.totalCost - s.totalCost == NetAmount(t)
    ensures ApplyTransaction(s, t).value.totalCost - s.totalCost >= t.totalAmount
  {
  }

  // ---------------------------------------------------------------------
  // Replay (recalculatePosition)

  /** The two accumulators of the replay loop. */
  datatype Totals = Totals(quantity: int, cost: Cents)

  /** The average cost the position holds while the replay loop runs: the
      reset just before the loop has set it to zero, and nothing in the loop
      changes it. */
  const ReplayAverageCost: Cents := 0

  /** One iteration of the replay loop. A BUY adds quantity and amount plus
      fees. A SELL removes quantity; while shares remain, the cost is reduced
      by the position's average cost times the quantity sold, which is zero
      during the replay; reaching exactly zero shares clears the cost; going
      below zero leaves the cost alone. */
  function ReplayStep(acc: Totals, t: Transaction): (r: Totals)
    ensures r.quantity == acc.quantity + SignedQuantity(t)
    ensures t.txType == Buy ==> r.cost == acc.cost + NetAmount(t)
    ensures t.txType == Sell && r.quantity == 0 ==> r.cost == 0
    ensures t.txType == Sell && r.quantity != 0 ==> r.cost == acc.cost
  {
    match t.txType
    case Buy => Totals(acc.quantity + t.quantity, acc.cost + t.totalAmount + t.fees)
    case Sell =>
      var q := acc.quantity - t.quantity;
      if q > 0 then Totals(q, acc.cost - ReplayAverageCost * t.quantity)
      else if q == 0 then Totals(0, 0)
      else Totals(q, acc.cost)
  }

  /** The replay loop over a ledger, in the ledger's order. */
  function Replay(txs: seq<Transaction>): Totals
    decreases |txs|
  {
    if txs == [] then Totals(0, 0) else ReplayStep(Replay(txs[..|txs| - 1]), txs[|txs| - 1])
  }

  /** The final assignments of `recalculatePosition`: quantity and cost from
      the replay, the average re-derived (half-up, two places) only when
      shares remain, the current value as it was. */
  function RecalcState(totals: Totals, currentValue: Cents): (r: PositionState)
    ensures r.quantity == totals.quantity && r.totalCost == totals.cost && r.currentValue == currentValue
    ensures r.quantity > 0 ==> IsHalfUpQuotient(r.totalCost, r.quantity, r.averageCost)
    ensures r.quantity <= 0 ==> r.averageCost == 0
  {
    var avg := if totals.quantity > 0 then DivHalfUp(totals.cost, totals.quantity) else 0;
    PositionState(totals.quantity, avg, totals.cost, currentValue)
  }

  /** Shares bought count positively, shares sold negatively. */
  function SignedQuantity(t: Transaction): int {
    if t.txType == Buy then t.quantity else -t.quantity
  }

  /** The net number of shares a ledger moves, summed from the front. */
  function NetQuantity(txs: seq<Transaction>): int
    decreases |txs|
  {
    if txs == [] then 0 else SignedQuantity(txs[0]) + NetQuantity(txs[1..])
  }

  lemma {:induction false} NetQuantityAppend(txs: seq<Transaction>, t: Transaction)
    ensures NetQuantity(txs + [t]) == NetQuantity(txs) + SignedQuantity(t)
    decreases |txs|
  {
    if txs != [] {
      assert (txs + [t])[1..] == txs[1..] + [t];
      NetQuantityAppend(txs[1..], t);
    }
  }

  /** The replayed quantity is the net number of shares bought minus sold,
      whatever the order; in particular it can be negative. */
  lemma {:induction false} ReplayQuantityIsNet(txs: seq<Transaction>)
    ensures Replay(txs).quantity == NetQuantity(txs)
    decreases |txs|
  {
    if txs != [] {
      var prefix := txs[..|txs| - 1];
      ReplayQuantityIsNet(prefix);
      NetQuantityAppend(prefix, txs[|txs| - 1]);
      assert prefix + [txs[|txs| - 1]] == txs;
    }
  }

  /** With well-formed entries the replayed cost never goes negative: sells
      remove nothing from it and only a flat position clears it. */
  lemma {:induction false} ReplayCostNonNegative(txs: seq<Transaction>)
    requires AllWellFormed(txs)
    ensures Replay(txs).cost >= 0
    decreases |txs|
  {
    if txs != [] {
      var prefix := txs[..|txs| - 1];
      assert AllWellFormed(prefix) by {
        forall i | 0 <= i < |prefix| ensures WellFormed(prefix[i]) {
          assert prefix[i] == txs[i];
        }
      }
      ReplayCostNonNegative(prefix);
      assert WellFormed(txs[|txs| - 1]);
    }
  }

  // ---------------------------------------------------------------------
  // Where the two agree and where they do not

  /** A ledger of well-formed purchases only. */
  predicate AllBuys(txs: seq<Transaction>) {
    forall i | 0 <= i < |txs| :: txs[i].txType == Buy && WellFormed(txs[i])
  }

  function SharesBought(txs: seq<Transaction>): int
    decreases |txs|
  {
    if txs == [] then 0 else SharesBought(txs[..|txs| - 1]) + txs[|txs| - 1].quantity
  }

  function Outlay(txs: seq<Transaction>): Cents
    decreases |txs|
  {
    if txs == [] then 0 else Outlay(txs[..|txs| - 1]) + NetAmount(txs[|txs| - 1])
  }

  /** For purchases only, incremental updates from an empty position and the
      replay both hold the shares bought and the cash spent, and the average
      is that cash over those shares rounded half-up: the weighted average
      cost. */
  lemma {:induction false} BuysOnlyWeightedAverage(txs: seq<Transaction>)
    requires AllBuys(txs) && txs != []
    ensures SharesBought(txs) >= 1
    ensures Replay(txs) == Totals(SharesBought(txs), Outlay(txs))
    ensures Incremental(Empty, txs).Success?
    ensures Incremental(Empty, txs).value.quantity == SharesBought(txs)
    ensures Incremental(Empty, txs).value.totalCost == Outlay(txs)
    ensures IsHalfUpQuotient(Outlay(txs), SharesBought(txs), Incremental(Empty, txs).value.averageCost)
    decreases |txs|
  {
    var prefix, last := txs[..|txs| - 1], txs[|txs| - 1];
    assert last.txType == Buy && WellFormed(last);
    if prefix != [] {
      assert AllBuys(prefix) by {
        forall i | 0 <= i < |prefix| ensures prefix[i].txType == Buy && WellFormed(prefix[i]) {
          assert prefix[i] == txs[i];
        }
      }
      BuysOnlyWeightedAverage(prefix);
    }
  }

  /** For purchases only the two computations agree field for field. */
  lemma BuysOnlyRecalcAgrees(txs: seq<Transaction>)
    requires AllBuys(txs)
    ensures Incremental(Empty, txs) == Success(RecalcState(Replay(txs), 0))
  {
    if txs != [] {
      BuysOnlyWeightedAverage(txs);
      var s := Incremental(Empty, txs).value;
      HalfUpQuotientUnique(s.totalCost, s.quantity, s.averageCost, RecalcState(Replay(txs), 0).averageCost);
    }
  }

  /** After a purchase of at least one cent per share and a partial sale,
      the incremental cost basis is strictly below the replayed one: the
      replay reduces by the reset average of zero, so recalculating a
      position changes it. */
  lemma PartialSellDiverges(b: Transaction, s: Transaction)
    requires WellFormed(b) && WellFormed(s) && b.txType == Buy && s.txType == Sell
    requires b.totalAmount >= b.quantity && s.quantity < b.quantity
    ensures Incremental(Empty, [b, s]).Success?
    ensures Incremental(Empty, [b, s]).value.totalCost < Replay([b, s]).cost
  {
    assert [b, s][..1] == [b];
    assert [b][..0] == [];
    assert Incremental(Empty, [b]) == ApplyTransaction(Empty, b);
    var afterBuy := ApplyTransaction(Empty, b).value;
    assert Incremental(Empty, [b, s]) == ApplyTransaction(afterBuy, s);
    AverageAtLeastOneCent(afterBuy.totalCost, afterBuy.quantity, afterBuy.averageCost);
    var reduction := afterBuy.averageCost * s.quantity;
    assert reduction >= s.quantity by {
      MulMonotone(s.quantity, 1, afterBuy.averageCost);
    }
    assert Replay([b]) == Totals(b.quantity, NetAmount(b));
    assert Replay([b, s]) == ReplayStep(Replay([b]), s);
  }

  /** Half-up rounding of at least one cent per share is at least one cent. */
  lemma AverageAtLeastOneCent(n: int, d: int, r: int)
    requires n >= d > 0 && IsHalfUpQuotient(n, d, r)
    ensures r >= 1
  {
  }

  // ---------------------------------------------------------------------
  // Worked histories

  /** A transaction whose total amount is price times quantity. */
  function Trade(txType: TransactionType, quantity: int, price: Cents, fees: Cents): Transaction {
    Transaction(0, 0, 0, txType, quantity, price, price * quantity, fees, 0)
  }

  /** BUY 10 at 190.23 with 4.95 fees, then SELL 4: the incremental path keeps
      the average of 190.73 and leaves 1144.33 of cost, while the replay keeps
      the whole 1907.25 and derives an average of 317.88. */
  lemma BuyThenPartialSell()
    ensures Incremental(Empty, [Trade(Buy, 10, 19023, 495), Trade(Sell, 4, 19500, 0)])
      == Success(PositionState(6, 19073, 114433, 0))
    ensures RecalcState(Replay([Trade(Buy, 10, 19023, 495), Trade(Sell, 4, 19500, 0)]), 0)
      == PositionState(6, 31788, 190725, 0)
  {
    var txs := [Trade(Buy, 10, 19023, 495), Trade(Sell, 4, 19500, 0)];
    assert txs[..1] == [txs[0]] && [txs[0]][..0] == [];
    assert DivHalfUp(190725, 10) == 19073;
    assert DivHalfUp(190725, 6) == 31788;
  }

  /** After a partial sale the stored average is no longer the cost over the
      quantity: 1144.33 / 6 rounds to 190.72, not the 190.73 kept. */
  lemma PartialSellBreaksAverage()
    ensures !IsHalfUpQuotient(114433, 6, 19073)
    ensures IsHalfUpQuotient(114433, 6, 19072)
  {
  }

  /** BUY 5 at 310.00 with 2.00 fees, then SELL 2 at 310.00 with 1.00 fees:
      three shares at an average of 310.40 and 931.20 of cost (the fees of a
      sale do not enter the cost basis). */
  lemma BuyThenSellSeed()
    ensures Incremental(Empty, [Trade(Buy, 5, 31000, 200), Trade(Sell, 2, 31000, 100)])
      == Success(PositionState(3, 31040, 93120, 0))
  {
    var txs := [Trade(Buy, 5, 31000, 200), Trade(Sell, 2, 31000, 100)];
    assert txs[..1] == [txs[0]] && [txs[0]][..0] == [];
    assert DivHalfUp(155200, 5) == 31040;
  }

  /** The rounded-up average can over-reduce the cost: BUY 100 at 0.01 with
      0.50 fees averages 0.015, stored as 0.02; selling 99 then removes 1.98
      from a cost of 1.50 and leaves -0.48 for the one share left. A further
      BUY of one share at 0.01 then gives a negative average cost. */
  lemma NegativeResidualCost()
    ensures Incremental(Empty, [Trade(Buy, 100, 1, 50), Trade(Sell, 99, 1, 0)])
      == Success(PositionState(1, 2, -48, 0))
    ensures Incremental(Empty, [Trade(Buy, 100, 1, 50), Trade(Sell, 99, 1, 0), Trade(Buy, 1, 1, 0)])
      == Success(PositionState(2, -24, -47, 0))
    ensures !AmountsNonNegative(PositionState(1, 2, -48, 0))
  {
    var txs := [Trade(Buy, 100, 1, 50), Trade(Sell, 99, 1, 0), Trade(Buy, 1, 1, 0)];
    assert txs[..2] == [txs[0], txs[1]];
    assert txs[..2][..1] == [txs[0]] && [txs[0]][..0] == [];
    assert DivHalfUp(150, 100) == 2;
    assert DivHalfUp(-47, 2) == -24;
  }

  /** A ledger left with more sold than bought (its purchase deleted) replays
      to a negative quantity; a BUY of as many shares as are missing then
      divides by zero. */
  lemma OversoldReplayDividesByZero()
    ensures Replay([Trade(Sell, 5, 100, 0)]).quantity == -5
    ensures ApplyTransaction(RecalcState(Replay([Trade(Sell, 5, 100, 0)]), 0), Trade(Buy, 5, 100, 0))
      == Failure(DivisionByZero)
  {
    assert [Trade(Sell, 5, 100, 0)][..0] == [];
  }
}

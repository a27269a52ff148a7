/** The `Position` entity: the holding of one stock in one portfolio. Its
    fields are updated in place by the position service and by its own
    `updateCurrentValue`, so it is a class. */
module Positions {
  import opened Common
  import opened Money

  /** Positions are keyed by their (portfolio, stock) pair. */
  datatype PositionKey = PositionKey(portfolioId: Id, stockId: Id)

  /** The mutable fields of a position, as a value. */
  datatype PositionState = PositionState(
    quantity: int,
    averageCost: Cents,
    totalCost: Cents,
    currentValue: Cents)

  /** Field defaults of a new position: every amount is zero. */
  const Empty := PositionState(0, 0, 0, 0)

  /** The declared `@DecimalMin("0.0")` constraints on the three amounts. */
  predicate AmountsNonNegative(s: PositionState) {
    s.averageCost >= 0 && s.totalCost >= 0 && s.currentValue >= 0
  }

  /** `updateCurrentValue` as a function of the state: with a known price the
      current value becomes price times quantity; without one (no stock or a
      null price) nothing changes. Quantity and costs are never touched. */
  function RefreshValue(s: PositionState, price: Option<Cents>): (r: PositionState)
    ensures r.quantity == s.quantity && r.averageCost == s.averageCost && r.totalCost == s.totalCost
    ensures price.None? ==> r == s
    ensures price.Some? ==> r.currentValue == price.value * s.quantity
    ensures price.Some? && s.quantity == 0 ==> r.currentValue == 0
    ensures price.Some? && price.value >= 0 && s.quantity >= 0 ==> r.currentValue >= 0
  {
    match price
    case None => s
    case Some(p) => s.(currentValue := p * s.quantity)
  }

  class Position {
    const portfolioId: Id
    const stockId: Id
    var quantity: int
    var averageCost: Cents
    var totalCost: Cents
    var currentValue: Cents

    /** `new Position(portfolio, stock)`: all amounts keep their zero defaults. */
    constructor (portfolioId: Id, stockId: Id)
      ensures this.portfolioId == portfolioId && this.stockId == stockId
      ensures State() == Empty
    {
      this.portfolioId := portfolioId;
      this.stockId := stockId;
      quantity := 0;
      averageCost := 0;
      totalCost := 0;
      currentValue := 0;
    }

    function Key(): PositionKey {
      PositionKey(portfolioId, stockId)
    }

    function State(): PositionState
      reads this
    {
      PositionState(quantity, averageCost, totalCost, currentValue)
    }

    /** `getGainLoss` */
    function GainLoss(): (r: Cents)
      reads this
      ensures r + totalCost == currentValue
    {
      Money.GainLoss(currentValue, totalCost)
    }

    /** `getGainLossPercentage`: zero for a zero cost, otherwise the gain/loss
        ratio rounded half-up to four places and multiplied by 100. */
    function GainLossPercentage(): (r: Scaled4)
      reads this
      ensures totalCost == 0 ==> r == 0
      ensures totalCost != 0 ==> r % 100 == 0 && IsHalfUpQuotient(GainLoss() * 10000, totalCost, r / 100)
    {
      Money.GainLossPercentage(currentValue, totalCost)
    }

    /** `updateCurrentValue`, with the stock's current price looked up by the
        caller (`None` when the stock or its price is null). */
    method UpdateCurrentValue(price: Option<Cents>)
      modifies this
      ensures State() == RefreshValue(old(State()), price)
    {
      if price.Some? {
        currentValue := price.value * quantity;
      }
    }

    /** Writes a whole state back; used when a unit of work is rolled back. */
    method Restore(s: PositionState)
      modifies this
      ensures State() == s
    {
      quantity, averageCost, totalCost, currentValue := s.quantity, s.averageCost, s.totalCost, s.currentValue;
    }
  }
}

/** The `Portfolio` entity. Its derived totals are written only by the
    portfolio service, so it is a value here. */
module Portfolios {
  import opened Common
  import opened Money

  /** The totals are nullable columns: `None` stands for null. */
  datatype Portfolio = Portfolio(
    userId: Id,
    name: string,
    description: Option<string>,
    totalValue: Option<Cents>,
    totalCost: Option<Cents>)

  /** `new Portfolio(user, name, description)`: both totals default to zero. */
  function NewPortfolio(userId: Id, name: string, description: Option<string>): (p: Portfolio)
    ensures p.userId == userId && p.name == name && p.description == description
    ensures p.totalValue == Some(0) && p.totalCost == Some(0)
    ensures PortfolioGainLoss(p) == 0 && PortfolioGainLossPercentage(p) == 0
  {
    Portfolio(userId, name, description, Some(0), Some(0))
  }

  /** `getGainLoss`: value minus cost, or zero when either is null. */
  function PortfolioGainLoss(p: Portfolio): (r: Cents)
    ensures p.totalValue.None? || p.totalCost.None? ==> r == 0
    ensures p.totalValue.Some? && p.totalCost.Some? ==> r + p.totalCost.value == p.totalValue.value
  {
    if p.totalValue.None? || p.totalCost.None? then 0
    else GainLoss(p.totalValue.value, p.totalCost.value)
  }

  /** `getGainLossPercentage`: zero when the cost is null or zero; otherwise
      the gain/loss ratio rounded half-up to four places, times 100. */
  function PortfolioGainLossPercentage(p: Portfolio): (r: Scaled4)
    ensures p.totalCost.None? || p.totalCost.value == 0 ==> r == 0
    ensures p.totalCost.Some? && p.totalCost.value != 0 ==>
      r % 100 == 0 && IsHalfUpQuotient(PortfolioGainLoss(p) * 10000, p.totalCost.value, r / 100)
  {
    if p.totalCost.None? || p.totalCost.value == 0 then 0
    else 100 * DivHalfUp(PortfolioGainLoss(p) * 10000, p.totalCost.value)
  }
}

/** `PortfolioService`: portfolio CRUD and the aggregation of a portfolio's
    active positions into its stored totals. */
module PortfolioAggregation {
  import opened Common
  import opened Money
  import opened Positions
  import opened Portfolios
  import opened Repositories

  // ---------------------------------------------------------------------
  // Sums over sets of positions

  ghost function PickKey(keys: set<PositionKey>): (k: PositionKey)
    requires keys != {}
    ensures k in keys
  {
    var k :| k in keys; k
  }

  /** The sum of `values` over `keys`, in no particular order. */
  ghost function SumOver(values: map<PositionKey, Cents>, keys: set<PositionKey>): Cents
    requires keys <= values.Keys
    decreases keys
  {
    if keys == {} then 0
    else
      var k := PickKey(keys);
      values[k] + SumOver(values, keys - {k})
  }

  /** Any element may be taken out first: the sum does not depend on the
      order in which the positions are visited. */
  lemma {:induction false} SumOverRemove(values: map<PositionKey, Cents>, keys: set<PositionKey>, k: PositionKey)
    requires keys <= values.Keys && k in keys
    ensures SumOver(values, keys) == values[k] + SumOver(values, keys - {k})
    decreases keys
  {
    var j := PickKey(keys);
    if j != k {
      SumOverRemove(values, keys - {j}, k);
      SumOverRemove(values, keys - {k}, j);
      assert keys - {j} - {k} == keys - {k} - {j};
    }
  }

  /** The sum only reads `values` at the summed keys. */
  lemma {:induction false} SumOverAgree(v1: map<PositionKey, Cents>, v2: map<PositionKey, Cents>, keys: set<PositionKey>)
    requires keys <= v1.Keys && keys <= v2.Keys
    requires forall k | k in keys :: v1[k] == v2[k]
    ensures SumOver(v1, keys) == SumOver(v2, keys)
    decreases keys
  {
    if keys != {} {
      var k := PickKey(keys);
      SumOverAgree(v1, v2, keys - {k});
    }
  }

  /** Summing non-negative amounts gives a non-negative total. */
  lemma {:induction false} SumOverNonNegative(values: map<PositionKey, Cents>, keys: set<PositionKey>)
    requires keys <= values.Keys
    requires forall k | k in keys :: values[k] >= 0
    ensures SumOver(values, keys) >= 0
    decreases keys
  {
    if keys != {} {
      SumOverNonNegative(values, keys - {PickKey(keys)});
    }
  }

  function CurrentValues(view: map<PositionKey, PositionState>): (m: map<PositionKey, Cents>)
    ensures m.Keys == view.Keys
  {
    map k | k in view :: view[k].currentValue
  }

  function TotalCosts(view: map<PositionKey, PositionState>): (m: map<PositionKey, Cents>)
    ensures m.Keys == view.Keys
  {
    map k | k in view :: view[k].totalCost
  }

  /** Σ currentValue over the portfolio's positions with quantity > 0. */
  ghost function AggregateValue(view: map<PositionKey, PositionState>, portfolioId: Id): Cents {
    SumOver(CurrentValues(view), ActiveKeys(view, portfolioId))
  }

  /** Σ totalCost over the portfolio's positions with quantity > 0. */
  ghost function AggregateCost(view: map<PositionKey, PositionState>, portfolioId: Id): Cents {
    SumOver(TotalCosts(view), ActiveKeys(view, portfolioId))
  }

  /** A position whose quantity is not positive contributes nothing to the
      totals: storing it, or not storing it at all, gives the same sums. */
  lemma InactivePositionIgnored(view: map<PositionKey, PositionState>, portfolioId: Id, k: PositionKey, s: PositionState)
    requires s.quantity <= 0
    ensures AggregateValue(view[k := s], portfolioId) == AggregateValue(view - {k}, portfolioId)
    ensures AggregateCost(view[k := s], portfolioId) == AggregateCost(view - {k}, portfolioId)
  {
    var v1, v2 := view[k := s], view - {k};
    assert ActiveKeys(v1, portfolioId) == ActiveKeys(v2, portfolioId);
    SumOverAgree(CurrentValues(v1), CurrentValues(v2), ActiveKeys(v2, portfolioId));
    SumOverAgree(TotalCosts(v1), TotalCosts(v2), ActiveKeys(v2, portfolioId));
  }

  /** An active position of the portfolio adds exactly its current value and
      its total cost to the totals. */
  lemma ActivePositionCounted(view: map<PositionKey, PositionState>, portfolioId: Id, k: PositionKey, s: PositionState)
    requires s.quantity > 0 && k.portfolioId == portfolioId
    ensures AggregateValue(view[k := s], portfolioId) == s.currentValue + AggregateValue(view - {k}, portfolioId)
    ensures AggregateCost(view[k := s], portfolioId) == s.totalCost + AggregateCost(view - {k}, portfolioId)
  {
    var v1, v2 := view[k := s], view - {k};
    var a1, a2 := ActiveKeys(v1, portfolioId), ActiveKeys(v2, portfolioId);
    assert a1 - {k} == a2;
    SumOverRemove(CurrentValues(v1), a1, k);
    SumOverRemove(TotalCosts(v1), a1, k);
    SumOverAgree(CurrentValues(v1), CurrentValues(v2), a2);
    SumOverAgree(TotalCosts(v1), TotalCosts(v2), a2);
  }

  /** Positions of other portfolios do not affect a portfolio's totals. */
  lemma OtherPortfolioIgnored(view: map<PositionKey, PositionState>, portfolioId: Id, k: PositionKey, s: PositionState)
    requires k.portfolioId != portfolioId
    ensures AggregateValue(view[k := s], portfolioId) == AggregateValue(view, portfolioId)
    ensures AggregateCost(view[k := s], portfolioId) == AggregateCost(view, portfolioId)
  {
    var v1 := view[k := s];
    assert ActiveKeys(v1, portfolioId) == ActiveKeys(view, portfolioId);
    SumOverAgree(CurrentValues(v1), CurrentValues(view), ActiveKeys(view, portfolioId));
    SumOverAgree(TotalCosts(v1), TotalCosts(view), ActiveKeys(view, portfolioId));
  }

  /** The declared non-negativity of the portfolio totals holds whenever it
      holds for the active positions that are summed. */
  lemma AggregateNonNegative(view: map<PositionKey, PositionState>, portfolioId: Id)
    requires forall k | k in ActiveKeys(view, portfolioId) :: AmountsNonNegative(view[k])
    ensures AggregateValue(view, portfolioId) >= 0 && AggregateCost(view, portfolioId) >= 0
  {
    SumOverNonNegative(CurrentValues(view), ActiveKeys(view, portfolioId));
    SumOverNonNegative(TotalCosts(view), ActiveKeys(view, portfolioId));
  }

  /** The portfolio after `updatePortfolioValues`. */
  ghost function WithTotals(p: Portfolio, view: map<PositionKey, PositionState>, portfolioId: Id): Portfolio {
    p.(totalValue := Some(AggregateValue(view, portfolioId)), totalCost := Some(AggregateCost(view, portfolioId)))
  }

  // ---------------------------------------------------------------------
  // Inputs and outputs of the service

  /** The user a new portfolio names; either part may be null. */
  datatype UserRef = UserRef(id: Option<Id>)

  /** A portfolio as submitted to `createPortfolio`. */
  datatype PortfolioDraft = PortfolioDraft(
    user: Option<UserRef>,
    name: string,
    description: Option<string>,
    totalValue: Option<Cents>,
    totalCost: Option<Cents>)

  /** The fields `updatePortfolio` may change; `None` stands for null. */
  datatype PortfolioDetails = PortfolioDetails(
    name: Option<string>,
    description: Option<string>,
    totalValue: Option<Cents>,
    totalCost: Option<Cents>)

  /** `updatePortfolio` on one portfolio: each supplied field is copied, the
      owner is never touched. */
  function ApplyPortfolioDetails(p: Portfolio, d: PortfolioDetails): (r: Portfolio)
    ensures r.userId == p.userId
    ensures d.name.Some? ==> r.name == d.name.value
    ensures d.name.None? ==> r.name == p.name
    ensures d.description.Some? ==> r.description == d.description
    ensures d.description.None? ==> r.description == p.description
    ensures d.totalValue.Some? ==> r.totalValue == d.totalValue
    ensures d.totalValue.None? ==> r.totalValue == p.totalValue
    ensures d.totalCost.Some? ==> r.totalCost == d.totalCost
    ensures d.totalCost.None? ==> r.totalCost == p.totalCost
  {
    p.(name := Overwrite(p.name, d.name),
       description := if d.description.Some? then d.description else p.description,
       totalValue := if d.totalValue.Some? then d.totalValue else p.totalValue,
       totalCost := if d.totalCost.Some? then d.totalCost else p.totalCost)
  }

  /** The summary map of `getPortfolioSummary`. */
  datatype PortfolioSummary = PortfolioSummary(
    portfolio: Portfolio,
    totalPositions: nat,
    totalValue: Option<Cents>,
    totalCost: Option<Cents>,
    gainLoss: Cents,
    gainLossPercentage: Scaled4,
    positions: set<PositionKey>)

  class PortfolioService {
    const portfolios: PortfolioRepository
    const positions: PositionRepository

    constructor (portfolios: PortfolioRepository, positions: PositionRepository)
      ensures this.portfolios == portfolios && this.positions == positions
    {
      this.portfolios := portfolios;
      this.positions := positions;
    }

    /** `getPortfolioById`: the stored portfolio, or "Portfolio not found". */
    method GetPortfolioById(id: Id) returns (r: Result<Portfolio>)
      ensures r.Success? <==> id in portfolios.rows
      ensures r.Success? ==> r.value == portfolios.rows[id]
      ensures r.Failure? ==> r.error == PortfolioNotFound
    {
      if id in portfolios.rows {
        r := Success(portfolios.rows[id]);
      } else {
        r := Failure(PortfolioNotFound);
      }
    }

    /** `createPortfolio`: refuses a portfolio without a user or without a user
        id, then one whose user does not exist (`users` are the ids the user
        service knows); otherwise stores it under a fresh id. */
    method CreatePortfolio(d: PortfolioDraft, users: set<Id>) returns (r: Result<Id>)
      requires portfolios.Valid()
      modifies portfolios
      ensures portfolios.Valid()
      ensures r.Failure? <==> d.user.None? || d.user.value.id.None? || d.user.value.id.value !in users
      ensures (d.user.None? || d.user.value.id.None?) ==> r == Failure(InvalidUser)
      ensures r.Failure? ==> portfolios.rows == old(portfolios.rows)
      ensures r.Success? ==>
        r.value !in old(portfolios.rows)
        && portfolios.rows == old(portfolios.rows)[r.value :=
             Portfolio(d.user.value.id.value, d.name, d.description, d.totalValue, d.totalCost)]
    {
      if d.user.None? || d.user.value.id.None? {
        return Failure(InvalidUser);
      }
      var userId := d.user.value.id.value;
      if userId !in users {
        return Failure(UserNotFound);
      }
      var id := portfolios.nextId;
      portfolios.rows := portfolios.rows[id := Portfolio(userId, d.name, d.description, d.totalValue, d.totalCost)];
      portfolios.nextId := id + 1;
      r := Success(id);
    }

    /** `updatePortfolio`: "Portfolio not found" for an unknown id, otherwise
        only the supplied fields change. */
    method UpdatePortfolio(id: Id, d: PortfolioDetails) returns (r: Result<Portfolio>)
      requires portfolios.Valid()
      modifies portfolios
      ensures portfolios.Valid()
      ensures r.Failure? <==> id !in old(portfolios.rows)
      ensures r.Failure? ==> r.error == PortfolioNotFound && portfolios.rows == old(portfolios.rows)
      ensures r.Success? ==>
        r.value == ApplyPortfolioDetails(old(portfolios.rows)[id], d)
        && portfolios.rows == old(portfolios.rows)[id := r.value]
    {
      if id !in portfolios.rows {
        return Failure(PortfolioNotFound);
      }
      var updated := ApplyPortfolioDetails(portfolios.rows[id], d);
      portfolios.rows := portfolios.rows[id := updated];
      r := GetPortfolioById(id);
    }

    /** `deletePortfolio`: "Portfolio not found" for an unknown id. */
    method DeletePortfolio(id: Id) returns (r: Result<()>)
      requires portfolios.Valid()
      modifies portfolios
      ensures portfolios.Valid()
      ensures r.Failure? <==> id !in old(portfolios.rows)
      ensures r.Failure? ==> r.error == PortfolioNotFound && portfolios.rows == old(portfolios.rows)
      ensures r.Success? ==> portfolios.rows == old(portfolios.rows) - {id}
    {
      if id !in portfolios.rows {
        return Failure(PortfolioNotFound);
      }
      portfolios.rows := portfolios.rows - {id};
      r := Success(());
    }

    /** The loop of `updatePortfolioValues`: visits the portfolio's positions
        with quantity > 0 and adds up their current values and total costs. */
    method SumActivePositions(portfolioId: Id) returns (totalValue: Cents, totalCost: Cents)
      ensures totalValue == AggregateValue(positions.View(), portfolioId)
      ensures totalCost == AggregateCost(positions.View(), portfolioId)
    {
      ghost var view := positions.View();
      var active := set k | k in positions.rows && k.portfolioId == portfolioId && positions.rows[k].quantity > 0;
      assert active == ActiveKeys(view, portfolioId);
      totalValue, totalCost := 0, 0;
      var remaining := active;
      while remaining != {}
        invariant remaining <= active
        invariant totalValue == SumOver(CurrentValues(view), active - remaining)
        invariant totalCost == SumOver(TotalCosts(view), active - remaining)
        decreases remaining
      {
        var k :| k in remaining;
        var p := positions.rows[k];
        totalValue := totalValue + p.currentValue;
        totalCost := totalCost + p.totalCost;
        ghost var done := active - remaining;
        assert (done + {k}) - {k} == done;
        SumOverRemove(CurrentValues(view), done + {k}, k);
        SumOverRemove(TotalCosts(view), done + {k}, k);
        remaining := remaining - {k};
        assert active - remaining == done + {k};
      }
      assert active - remaining == active;
    }

    /** `updatePortfolioValues`: "Portfolio not found" for an unknown id;
        otherwise the portfolio's totals become the sums of current value and
        of total cost over its active positions, and nothing else changes. */
    method UpdatePortfolioValues(portfolioId: Id) returns (r: Result<Portfolio>)
      requires portfolios.Valid()
      modifies portfolios
      ensures portfolios.Valid() && positions.View() == old(positions.View())
      ensures r.Failure? <==> portfolioId !in old(portfolios.rows)
      ensures r.Failure? ==> r.error == PortfolioNotFound && portfolios.rows == old(portfolios.rows)
      ensures r.Success? ==>
        r.value == WithTotals(old(portfolios.rows)[portfolioId], old(positions.View()), portfolioId)
        && portfolios.rows == old(portfolios.rows)[portfolioId := r.value]
    {
      var found := GetPortfolioById(portfolioId);
      if found.Failure? {
        return Failure(found.error);
      }
      var totalValue, totalCost := SumActivePositions(portfolioId);
      var updated := found.value.(totalValue := Some(totalValue), totalCost := Some(totalCost));
      portfolios.rows := portfolios.rows[portfolioId := updated];
      r := Success(updated);
    }

    /** `getPortfolioSummary`: the stored totals and gain/loss of the
        portfolio, and its active positions and their number. */
    method GetPortfolioSummary(portfolioId: Id) returns (r: Result<PortfolioSummary>)
      ensures r.Failure? <==> portfolioId !in portfolios.rows
      ensures r.Failure? ==> r.error == PortfolioNotFound
      ensures r.Success? ==>
        var p := portfolios.rows[portfolioId];
        && r.value.portfolio == p
        && r.value.positions == ActiveKeys(positions.View(), portfolioId)
        && r.value.totalPositions == |ActiveKeys(positions.View(), portfolioId)|
        && r.value.totalValue == p.totalValue && r.value.totalCost == p.totalCost
        && r.value.gainLoss == PortfolioGainLoss(p)
        && r.value.gainLossPercentage == PortfolioGainLossPercentage(p)
    {
      var found := GetPortfolioById(portfolioId);
      if found.Failure? {
        return Failure(found.error);
      }
      var p := found.value;
      var active := set k | k in positions.rows && k.portfolioId == portfolioId && positions.rows[k].quantity > 0;
      assert active == ActiveKeys(positions.View(), portfolioId);
      r := Success(PortfolioSummary(p, |active|, p.totalValue, p.totalCost,
                                    PortfolioGainLoss(p), PortfolioGainLossPercentage(p), active));
    }
  }
}

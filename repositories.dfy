/** The Spring Data repositories, as in-memory stores: maps keyed by id for
    stocks, portfolios and positions, and the transaction ledger as a sequence
    in insertion order. Ids are handed out by a counter, as an IDENTITY column
    does. Only the queries the core relies on are modelled. */
module Repositories {
  import opened Common
  import opened Money
  import opened Transactions
  import opened Positions
  import opened Portfolios
  import opened Stocks

  /** No two stocks share a symbol (the column is `unique = true`). */
  ghost predicate SymbolsUnique(rows: map<Id, Stock>) {
    forall i, j | i in rows && j in rows && rows[i].symbol == rows[j].symbol :: i == j
  }

  class StockRepository {
    var rows: map<Id, Stock>
    var nextId: Id

    constructor ()
      ensures Valid() && rows == map[]
    {
      rows := map[];
      nextId := 0;
    }

    /** Ids come from the counter; symbols are unique and upper-case. */
    ghost predicate Valid()
      reads this
    {
      && (forall id | id in rows :: id < nextId)
      && (forall id | id in rows :: IsUpper(rows[id].symbol))
      && SymbolsUnique(rows)
    }
  }

  class PortfolioRepository {
    var rows: map<Id, Portfolio>
    var nextId: Id

    constructor ()
      ensures Valid() && rows == map[]
    {
      rows := map[];
      nextId := 0;
    }

    ghost predicate Valid()
      reads this
    {
      forall id | id in rows :: id < nextId
    }
  }

  /** `findByPortfolioPortfolioID`: the keys of one portfolio's positions. */
  function PortfolioKeys(view: map<PositionKey, PositionState>, portfolioId: Id): (ks: set<PositionKey>)
    ensures ks <= view.Keys
    ensures forall k :: k in ks <==> k in view && k.portfolioId == portfolioId
  {
    set k | k in view && k.portfolioId == portfolioId
  }

  /** `findActivePositions`: the positions of a portfolio whose quantity is
      positive (`p.quantity > 0`); the ORDER BY does not matter to callers. */
  function ActiveKeys(view: map<PositionKey, PositionState>, portfolioId: Id): (ks: set<PositionKey>)
    ensures ks <= PortfolioKeys(view, portfolioId)
    ensures forall k :: k in ks <==> k in view && k.portfolioId == portfolioId && view[k].quantity > 0
  {
    set k | k in view && k.portfolioId == portfolioId && view[k].quantity > 0
  }

  class PositionRepository {
    var rows: map<PositionKey, Position>

    constructor ()
      ensures Valid() && rows == map[]
    {
      rows := map[];
    }

    /** Every row is stored under its own (portfolio, stock) pair, so there is
        at most one position per pair and no object is stored twice. */
    ghost predicate Valid()
      reads this
    {
      forall k | k in rows :: rows[k].Key() == k
    }

    /** The states of all positions. */
    function View(): (v: map<PositionKey, PositionState>)
      reads this, rows.Values
      ensures v.Keys == rows.Keys
    {
      map k | k in rows :: rows[k].State()
    }

    /** `findByPortfolioPortfolioIDAndStockStockID` */
    method FindByKey(key: PositionKey) returns (r: Option<Position>)
      ensures r.Some? <==> key in rows
      ensures r.Some? ==> r.value == rows[key]
    {
      r := if key in rows then Some(rows[key]) else None;
    }

    /** `save` of a position not stored yet. */
    method Insert(p: Position)
      requires Valid() && p.Key() !in rows
      modifies this
      ensures Valid() && rows == old(rows)[p.Key() := p]
    {
      rows := rows[p.Key() := p];
    }

    /** A rolled-back update of a stored position: its fields get back the
        values they had. */
    method RestoreRow(key: PositionKey, s: PositionState)
      requires Valid() && key in rows
      modifies rows[key]
      ensures rows == old(rows)
      ensures View() == old(View())[key := s]
    {
      var p := rows[key];
      assert forall k | k in rows && k != key :: rows[k] != p;
      p.Restore(s);
    }

    /** `delete` of the row stored under `key` (how a rolled-back insert
        disappears). */
    method Remove(key: PositionKey)
      requires Valid()
      modifies this
      ensures Valid() && rows == old(rows) - {key}
      ensures View() == old(View()) - {key}
    {
      rows := rows - {key};
    }
  }

  /** `findByPortfolioPortfolioIDAndStockStockID` on the ledger: the entries of
      one (portfolio, stock) pair, in stored order (the query has no ORDER BY). */
  function ForPair(entries: seq<Transaction>, portfolioId: Id, stockId: Id): (r: seq<Transaction>)
    ensures |r| <= |entries|
    ensures forall t :: t in r <==> t in entries && t.portfolioId == portfolioId && t.stockId == stockId
  {
    if entries == [] then []
    else
      var last := entries[|entries| - 1];
      ForPair(entries[..|entries| - 1], portfolioId, stockId)
        + (if last.portfolioId == portfolioId && last.stockId == stockId then [last] else [])
  }

  /** The entries of one portfolio, in stored order. */
  function ForPortfolio(entries: seq<Transaction>, portfolioId: Id): (r: seq<Transaction>)
    ensures |r| <= |entries|
    ensures forall t :: t in r <==> t in entries && t.portfolioId == portfolioId
  {
    if entries == [] then []
    else
      var last := entries[|entries| - 1];
      ForPortfolio(entries[..|entries| - 1], portfolioId)
        + (if last.portfolioId == portfolioId then [last] else [])
  }

  /** The ledger without the entry carrying `id`. */
  function WithoutId(entries: seq<Transaction>, id: Id): (r: seq<Transaction>)
    ensures |r| <= |entries|
    ensures forall t :: t in r <==> t in entries && t.id != id
  {
    if entries == [] then []
    else
      var last := entries[|entries| - 1];
      WithoutId(entries[..|entries| - 1], id) + (if last.id != id then [last] else [])
  }

  /** The pair filter keeps every matching entry exactly as often as the
      ledger holds it, and no other entry. */
  lemma {:induction false} ForPairCounts(entries: seq<Transaction>, portfolioId: Id, stockId: Id)
    ensures forall t ::
              multiset(ForPair(entries, portfolioId, stockId))[t] ==
              if t.portfolioId == portfolioId && t.stockId == stockId then multiset(entries)[t] else 0
    decreases |entries|
  {
    if entries != [] {
      var prefix := entries[..|entries| - 1];
      ForPairCounts(prefix, portfolioId, stockId);
      assert entries == prefix + [entries[|entries| - 1]];
    }
  }

  /** The portfolio filter keeps every entry of the portfolio exactly as
      often as the ledger holds it, and no other entry. */
  lemma {:induction false} ForPortfolioCounts(entries: seq<Transaction>, portfolioId: Id)
    ensures forall t ::
              multiset(ForPortfolio(entries, portfolioId))[t] ==
              if t.portfolioId == portfolioId then multiset(entries)[t] else 0
    decreases |entries|
  {
    if entries != [] {
      var prefix := entries[..|entries| - 1];
      ForPortfolioCounts(prefix, portfolioId);
      assert entries == prefix + [entries[|entries| - 1]];
    }
  }

  /** Removing by id keeps every other entry exactly as often as the ledger
      holds it. */
  lemma {:induction false} WithoutIdCounts(entries: seq<Transaction>, id: Id)
    ensures forall t :: multiset(WithoutId(entries, id))[t] == if t.id != id then multiset(entries)[t] else 0
    decreases |entries|
  {
    if entries != [] {
      var prefix := entries[..|entries| - 1];
      WithoutIdCounts(prefix, id);
      assert entries == prefix + [entries[|entries| - 1]];
    }
  }

  /** The ledger with the entry carrying `t`'s id replaced by `t`. */
  function ReplaceById(entries: seq<Transaction>, t: Transaction): (r: seq<Transaction>)
    ensures |r| == |entries|
    ensures forall i | 0 <= i < |r| :: r[i] == (if entries[i].id == t.id then t else entries[i])
  {
    seq(|entries|, i requires 0 <= i < |entries| => if entries[i].id == t.id then t else entries[i])
  }

  /** Removing entries keeps the others in order, so distinct ids stay
      distinct and below the counter. */
  lemma {:induction false} WithoutIdKeepsIds(entries: seq<Transaction>, id: Id)
    requires IdsUnique(entries)
    ensures IdsUnique(WithoutId(entries, id))
    decreases |entries|
  {
    if entries != [] {
      var prefix := entries[..|entries| - 1];
      WithoutIdKeepsIds(prefix, id);
      var last := entries[|entries| - 1];
      forall t | t in WithoutId(prefix, id) ensures t.id != last.id {
        var j :| 0 <= j < |prefix| && prefix[j] == t;
        assert entries[j] == t;
      }
    }
  }

  /** With distinct ids, an id names at most one entry. */
  lemma SameIdSameEntry(entries: seq<Transaction>, t1: Transaction, t2: Transaction)
    requires IdsUnique(entries) && t1 in entries && t2 in entries && t1.id == t2.id
    ensures t1 == t2
  {
    var i :| 0 <= i < |entries| && entries[i] == t1;
    var j :| 0 <= j < |entries| && entries[j] == t2;
    assert i == j;
  }

  /** Ledger ids are distinct. */
  ghost predicate IdsUnique(entries: seq<Transaction>) {
    forall i, j | 0 <= i < j < |entries| :: entries[i].id != entries[j].id
  }

  class TransactionRepository {
    var entries: seq<Transaction>
    var nextId: Id

    constructor ()
      ensures Valid() && entries == []
    {
      entries := [];
      nextId := 0;
    }

    /** Ids come from the counter and are distinct. */
    ghost predicate Valid()
      reads this
    {
      && (forall i | 0 <= i < |entries| :: entries[i].id < nextId)
      && IdsUnique(entries)
    }

    /** `findById` */
    method FindById(id: Id) returns (r: Option<Transaction>)
      requires Valid()
      ensures r.Some? <==> exists i :: 0 <= i < |entries| && entries[i].id == id
      ensures r.Some? ==> r.value in entries && r.value.id == id
    {
      r := None;
      var i := 0;
      while i < |entries|
        invariant 0 <= i <= |entries|
        invariant forall j | 0 <= j < i :: entries[j].id != id
      {
        if entries[i].id == id {
          return Some(entries[i]);
        }
        i := i + 1;
      }
    }

    /** `save` of a new entry: it gets the next id and goes to the end. */
    method Add(t: Transaction) returns (saved: Transaction)
      requires Valid()
      modifies this
      ensures Valid()
      ensures saved == t.(id := old(nextId))
      ensures entries == old(entries) + [saved] && nextId == old(nextId) + 1
    {
      saved := t.(id := nextId);
      entries := entries + [saved];
      nextId := nextId + 1;
    }

    /** `save` of an entry that is already stored: it replaces the entry with
        the same id, in place. */
    method Update(t: Transaction)
      requires Valid()
      modifies this
      ensures Valid() && nextId == old(nextId)
      ensures entries == ReplaceById(old(entries), t)
    {
      entries := ReplaceById(entries, t);
    }

    /** Rolling back puts an earlier ledger back; ids already handed out
        stay handed out. */
    method Restore(saved: seq<Transaction>)
      requires Valid()
      requires (forall i | 0 <= i < |saved| :: saved[i].id < nextId) && IdsUnique(saved)
      modifies this
      ensures Valid() && nextId == old(nextId) && entries == saved
    {
      entries := saved;
    }

    /** `deleteById` */
    method Delete(id: Id)
      requires Valid()
      modifies this
      ensures Valid() && nextId == old(nextId)
      ensures entries == WithoutId(old(entries), id)
    {
      WithoutIdKeepsIds(entries, id);
      entries := WithoutId(entries, id);
    }
  }
}

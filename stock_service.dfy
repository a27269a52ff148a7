/** `StockService`: the stock catalog. Symbols are normalised to upper case on
    every entry path and are unique, which every operation preserves. */
module StockCatalog {
  import opened Common
  import opened Money
  import opened Stocks
  import opened Repositories

  /** The fields `updateStock` may change; `None` stands for null. */
  datatype StockDetails = StockDetails(
    companyName: Option<string>,
    currentPrice: Option<Cents>,
    sector: Option<string>,
    marketCap: Option<int>)

  /** `updateStock` on one stock: each supplied field is copied, the symbol and
      timestamp are never touched. */
  function ApplyStockDetails(s: Stock, d: StockDetails): (r: Stock)
    ensures r.symbol == s.symbol && r.lastUpdated == s.lastUpdated
    ensures d.companyName.Some? ==> r.companyName == d.companyName.value
    ensures d.companyName.None? ==> r.companyName == s.companyName
    ensures d.currentPrice.Some? ==> r.currentPrice == d.currentPrice
    ensures d.currentPrice.None? ==> r.currentPrice == s.currentPrice
    ensures d.sector.Some? ==> r.sector == d.sector
    ensures d.sector.None? ==> r.sector == s.sector
    ensures d.marketCap.Some? ==> r.marketCap == d.marketCap
    ensures d.marketCap.None? ==> r.marketCap == s.marketCap
  {
    s.(companyName := Overwrite(s.companyName, d.companyName),
       currentPrice := if d.currentPrice.Some? then d.currentPrice else s.currentPrice,
       sector := if d.sector.Some? then d.sector else s.sector,
       marketCap := if d.marketCap.Some? then d.marketCap else s.marketCap)
  }

  /** Applying the same details twice changes nothing more, and details with
      every field null change nothing at all. */
  lemma StockDetailsIdempotent(s: Stock, d: StockDetails)
    ensures ApplyStockDetails(ApplyStockDetails(s, d), d) == ApplyStockDetails(s, d)
    ensures ApplyStockDetails(s, StockDetails(None, None, None, None)) == s
  {
  }

  /** Some stock in `rows` has exactly this symbol. */
  ghost predicate HasSymbol(rows: map<Id, Stock>, symbol: string) {
    exists id :: id in rows && rows[id].symbol == symbol
  }

  class StockService {
    const stocks: StockRepository

    constructor (stocks: StockRepository)
      ensures this.stocks == stocks
    {
      this.stocks := stocks;
    }

    /** `getStockById`: the stored stock, or "Stock not found". */
    method GetStockById(id: Id) returns (r: Result<Stock>)
      ensures r.Success? <==> id in stocks.rows
      ensures r.Success? ==> r.value == stocks.rows[id]
      ensures r.Failure? ==> r.error == StockNotFound
    {
      if id in stocks.rows {
        r := Success(stocks.rows[id]);
      } else {
        r := Failure(StockNotFound);
      }
    }

    /** `getStockBySymbol`: looks the symbol up in upper case; the id found is
        the only one carrying that symbol. */
    method GetStockBySymbol(symbol: string) returns (r: Result<Id>)
      requires stocks.Valid()
      ensures r.Success? <==> HasSymbol(stocks.rows, ToUpper(symbol))
      ensures r.Success? ==> r.value in stocks.rows && stocks.rows[r.value].symbol == ToUpper(symbol)
      ensures r.Success? ==> forall id | id in stocks.rows && stocks.rows[id].symbol == ToUpper(symbol) :: id == r.value
      ensures r.Failure? ==> r.error == StockNotFound
    {
      var upper := ToUpper(symbol);
      if id :| id in stocks.rows && stocks.rows[id].symbol == upper {
        r := Success(id);
      } else {
        r := Failure(StockNotFound);
      }
    }

    /** `createStock`: upper-cases the symbol, refuses a symbol already in the
        catalog, and otherwise stores the stock under a fresh id. */
    method CreateStock(s: Stock) returns (r: Result<Id>)
      requires stocks.Valid()
      modifies stocks
      ensures stocks.Valid()
      ensures HasSymbol(old(stocks.rows), ToUpper(s.symbol)) <==> r.Failure?
      ensures r.Failure? ==> r.error == DuplicateSymbol && stocks.rows == old(stocks.rows)
      ensures r.Success? ==>
        r.value !in old(stocks.rows) && stocks.rows == old(stocks.rows)[r.value := s.(symbol := ToUpper(s.symbol))]
    {
      var upper := ToUpper(s.symbol);
      if exists id :: id in stocks.rows && stocks.rows[id].symbol == upper {
        return Failure(DuplicateSymbol);
      }
      var id := stocks.nextId;
      stocks.rows := stocks.rows[id := s.(symbol := upper)];
      stocks.nextId := id + 1;
      r := Success(id);
    }

    /** `updateStock`: "Stock not found" for an unknown id, otherwise the
        supplied fields are copied onto the stored stock. */
    method UpdateStock(id: Id, d: StockDetails) returns (r: Result<Stock>)
      requires stocks.Valid()
      modifies stocks
      ensures stocks.Valid()
      ensures r.Failure? <==> id !in old(stocks.rows)
      ensures r.Failure? ==> r.error == StockNotFound && stocks.rows == old(stocks.rows)
      ensures r.Success? ==>
        r.value == ApplyStockDetails(old(stocks.rows)[id], d) && stocks.rows == old(stocks.rows)[id := r.value]
    {
      if id !in stocks.rows {
        return Failure(StockNotFound);
      }
      var updated := ApplyStockDetails(stocks.rows[id], d);
      stocks.rows := stocks.rows[id := updated];
      r := Success(updated);
    }

    /** `deleteStock`: "Stock not found" for an unknown id. */
    method DeleteStock(id: Id) returns (r: Result<()>)
      requires stocks.Valid()
      modifies stocks
      ensures stocks.Valid()
      ensures r.Failure? <==> id !in old(stocks.rows)
      ensures r.Failure? ==> r.error == StockNotFound && stocks.rows == old(stocks.rows)
      ensures r.Success? ==> stocks.rows == old(stocks.rows) - {id}
    {
      if id !in stocks.rows {
        return Failure(StockNotFound);
      }
      stocks.rows := stocks.rows - {id};
      r := Success(());
    }

    /** `updateStockPrice`: only the price and the last-updated time change. */
    method UpdateStockPrice(id: Id, newPrice: Option<Cents>, now: Timestamp) returns (r: Result<Stock>)
      requires stocks.Valid()
      modifies stocks
      ensures stocks.Valid()
      ensures r.Failure? <==> id !in old(stocks.rows)
      ensures r.Failure? ==> r.error == StockNotFound && stocks.rows == old(stocks.rows)
      ensures r.Success? ==>
        r.value == old(stocks.rows)[id].(currentPrice := newPrice, lastUpdated := Some(now))
        && stocks.rows == old(stocks.rows)[id := r.value]
    {
      var found := GetStockById(id);
      if found.Failure? {
        return Failure(found.error);
      }
      var updated := found.value.(currentPrice := newPrice, lastUpdated := Some(now));
      stocks.rows := stocks.rows[id := updated];
      r := Success(updated);
    }

    /** `updateStockPriceBySymbol`: the same change on the stock found by its
        upper-cased symbol. */
    method UpdateStockPriceBySymbol(symbol: string, newPrice: Option<Cents>, now: Timestamp) returns (r: Result<Id>)
      requires stocks.Valid()
      modifies stocks
      ensures stocks.Valid()
      ensures r.Failure? <==> !HasSymbol(old(stocks.rows), ToUpper(symbol))
      ensures r.Failure? ==> r.error == StockNotFound && stocks.rows == old(stocks.rows)
      ensures r.Success? ==>
        r.value in old(stocks.rows) && old(stocks.rows)[r.value].symbol == ToUpper(symbol)
        && stocks.rows == old(stocks.rows)[r.value := old(stocks.rows)[r.value].(currentPrice := newPrice, lastUpdated := Some(now))]
    {
      var found := GetStockBySymbol(symbol);
      if found.Failure? {
        return Failure(found.error);
      }
      var id := found.value;
      var updated := stocks.rows[id].(currentPrice := newPrice, lastUpdated := Some(now));
      stocks.rows := stocks.rows[id := updated];
      r := Success(id);
    }

    /** `getOrCreateStock`: when the upper-cased symbol is known, that stock is
        returned and only its price (and time) is refreshed, and only when a
        price is given; otherwise exactly one stock is created, under the
        upper-cased symbol. Either way the symbol stays unique. */
    method GetOrCreateStock(symbol: string, companyName: string, price: Option<Cents>, now: Timestamp)
      returns (id: Id)
      requires stocks.Valid()
      modifies stocks
      ensures stocks.Valid()
      ensures id in stocks.rows && stocks.rows[id].symbol == ToUpper(symbol)
      ensures HasSymbol(old(stocks.rows), ToUpper(symbol)) ==>
        id in old(stocks.rows) && stocks.rows == old(stocks.rows)[id :=
          if price.Some? then old(stocks.rows)[id].(currentPrice := price, lastUpdated := Some(now))
          else old(stocks.rows)[id]]
      ensures !HasSymbol(old(stocks.rows), ToUpper(symbol)) ==>
        id !in old(stocks.rows) && stocks.rows == old(stocks.rows)[id := NewStock(ToUpper(symbol), companyName, price)]
    {
      var upper := ToUpper(symbol);
      if existing :| existing in stocks.rows && stocks.rows[existing].symbol == upper {
        id := existing;
        if price.Some? {
          stocks.rows := stocks.rows[id := stocks.rows[id].(currentPrice := price, lastUpdated := Some(now))];
        }
      } else {
        id := stocks.nextId;
        stocks.rows := stocks.rows[id := NewStock(upper, companyName, price)];
        stocks.nextId := id + 1;
      }
    }
  }
}

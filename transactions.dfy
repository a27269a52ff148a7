/** The `Transaction` entity: one immutable ledger entry. The setters are plain
    stores, so the entity is a value; the only field the services ever change
    after saving is `fees`. */
module Transactions {
  import opened Common
  import opened Money

  /** `TransactionType`: exactly BUY or SELL. */
  datatype TransactionType = Buy | Sell

  /** A saved ledger entry. `totalAmount` and `transactionDate` are always set
      once a transaction has gone through `createTransaction`. */
  datatype Transaction = Transaction(
    id: Id,
    portfolioId: Id,
    stockId: Id,
    txType: TransactionType,
    quantity: int,
    pricePerShare: Cents,
    totalAmount: Cents,
    fees: Cents,
    date: Timestamp)

  /** A transaction that has not been saved yet: it has no id, and its
      `totalAmount` and `transactionDate` may still be missing (null). */
  datatype TransactionDraft = TransactionDraft(
    portfolioId: Id,
    stockId: Id,
    txType: TransactionType,
    quantity: int,
    pricePerShare: Cents,
    totalAmount: Option<Cents>,
    fees: Cents,
    date: Option<Timestamp>)

  /** The declared bean-validation constraints: quantity at least 1, price per
      share and total amount at least 0.01, fees non-negative. */
  predicate WellFormed(t: Transaction) {
    && t.quantity >= 1
    && t.pricePerShare >= 1
    && t.totalAmount >= 1
    && t.fees >= 0
  }

  /** The same constraints on a draft; a missing total amount is allowed here
      because `createTransaction` fills it in. */
  predicate DraftWellFormed(d: TransactionDraft) {
    && d.quantity >= 1
    && d.pricePerShare >= 1
    && (d.totalAmount.Some? ==> d.totalAmount.value >= 1)
    && d.fees >= 0
  }

  /** The five-argument constructor: fees keep their default of zero, the
      date is left unset and the total amount is price times quantity. The
      declared lower bound on the total amount then follows from those on
      quantity and price. */
  function NewTransaction(portfolioId: Id, stockId: Id, txType: TransactionType,
                          quantity: int, pricePerShare: Cents): (d: TransactionDraft)
    ensures d.portfolioId == portfolioId && d.stockId == stockId && d.txType == txType
    ensures d.quantity == quantity && d.pricePerShare == pricePerShare
    ensures d.fees == 0 && d.date == None
    ensures d.totalAmount.Some? && d.totalAmount.value == pricePerShare * quantity
    ensures quantity >= 1 && pricePerShare >= 1 ==> DraftWellFormed(d)
  {
    var total := pricePerShare * quantity;
    assert quantity >= 1 && pricePerShare >= 1 ==> total >= pricePerShare;
    TransactionDraft(portfolioId, stockId, txType, quantity, pricePerShare, Some(total), 0, None)
  }

  /** `getNetAmount`: the cash that leaves the account for a BUY (amount plus
      fees) and the cash that arrives for a SELL (amount minus fees). With
      non-negative fees a BUY never costs less, and a SELL never yields more,
      than its total amount, and the two differ from it by the fees alone. */
  function NetAmount(t: Transaction): (r: Cents)
    ensures t.fees >= 0 && t.txType == Buy ==> r >= t.totalAmount
    ensures t.fees >= 0 && t.txType == Sell ==> r <= t.totalAmount
    ensures Abs(r - t.totalAmount) == Abs(t.fees)
  {
    if t.txType == Buy then t.totalAmount + t.fees else t.totalAmount - t.fees
  }
}

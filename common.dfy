/** Shared vocabulary: identifiers, opaque timestamps, optional values and the
    error outcomes the services report (each `RuntimeException` the services
    throw becomes one `Error` value). */
module Common {

  /** Database identifiers (`@GeneratedValue(strategy = IDENTITY)` columns). */
  type Id = nat

  /** A `LocalDateTime`; the clock is outside the model, so a timestamp is an
      opaque value handed in by the caller. */
  type Timestamp = nat

  datatype Option<+T> = None | Some(value: T)

  datatype Result<+T> = Success(value: T) | Failure(error: Error)

  datatype Error =
    | PortfolioNotFound
    | StockNotFound
    | TransactionNotFound
    /** "Insufficient shares to sell. Available: n" (TransactionService) */
    | InsufficientShares(available: int)
    /** "Cannot sell more shares than owned" (PositionService) */
    | CannotSellMoreThanOwned
    /** `BigDecimal.divide` by a zero quantity throws `ArithmeticException` */
    | DivisionByZero
    /** "Stock already exists with symbol: ..." */
    | DuplicateSymbol
    /** "Portfolio must have a valid user" */
    | InvalidUser
    /** The user service does not know the user id */
    | UserNotFound
    /** `Stream.limit` rejects a negative size */
    | NegativeLimit

  /** The "update fields if provided" idiom: a supplied (non-null) value
      replaces the current one, a missing one leaves it. */
  function Overwrite<T>(current: T, supplied: Option<T>): (r: T)
    ensures supplied.Some? ==> r == supplied.value
    ensures supplied.None? ==> r == current
  {
    if supplied.Some? then supplied.value else current
  }

  /** Storing a key's own value back changes nothing. */
  lemma UpdateSame<K, V>(m: map<K, V>, k: K)
    requires k in m
    ensures m[k := m[k]] == m
  {
  }

  /** Adding a new key and removing it again changes nothing. */
  lemma UpdateThenRemove<K, V>(m: map<K, V>, k: K, v: V)
    requires k !in m
    ensures m[k := v] - {k} == m
  {
  }

  /** The second of two stores under the same key wins. */
  lemma UpdateTwice<K, V>(m: map<K, V>, k: K, v: V, w: V)
    ensures m[k := v][k := w] == m[k := w]
  {
  }
}

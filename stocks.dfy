/** The `Stock` entity of the catalog and the symbol normalisation. */
module Stocks {
  import opened Common
  import opened Money

  datatype Stock = Stock(
    symbol: string,
    companyName: string,
    currentPrice: Option<Cents>,
    sector: Option<string>,
    marketCap: Option<int>,
    lastUpdated: Option<Timestamp>)

  /** `new Stock(symbol, companyName, currentPrice)`. */
  function NewStock(symbol: string, companyName: string, price: Option<Cents>): (s: Stock)
    ensures s.symbol == symbol && s.companyName == companyName && s.currentPrice == price
    ensures s.sector == None && s.marketCap == Some(0) && s.lastUpdated == None
  {
    Stock(symbol, companyName, price, None, Some(0), None)
  }

  predicate IsLowerChar(c: char) {
    'a' <= c <= 'z'
  }

  /** `Character.toUpperCase` on the ASCII letters. */
  function UpperChar(c: char): (u: char)
    ensures !IsLowerChar(u)
    ensures !IsLowerChar(c) ==> u == c
    ensures IsLowerChar(c) ==> 'A' <= u <= 'Z' && u as int - c as int == 'A' as int - 'a' as int
  {
    if IsLowerChar(c) then (c as int - 'a' as int + 'A' as int) as char else c
  }

  /** A symbol in normal form: no lower-case letter. */
  predicate IsUpper(s: string) {
    forall i :: 0 <= i < |s| ==> !IsLowerChar(s[i])
  }

  /** `String.toUpperCase`, restricted to ASCII: upper-cases letter by
      letter, so the length is kept and the result is in normal form. */
  function ToUpper(s: string): (r: string)
    ensures |r| == |s|
    ensures forall i :: 0 <= i < |s| ==> r[i] == UpperChar(s[i])
    ensures IsUpper(r)
  {
    if s == [] then [] else [UpperChar(s[0])] + ToUpper(s[1..])
  }

  /** Normalising twice is normalising once, and normal symbols are fixed. */
  lemma {:induction false} ToUpperIdempotent(s: string)
    ensures ToUpper(ToUpper(s)) == ToUpper(s)
    ensures IsUpper(s) ==> ToUpper(s) == s
  {
    if s != [] {
      ToUpperIdempotent(s[1..]);
    }
  }

  /** Two symbols differing only in the case of letters normalise to the same
      symbol, so they name the same stock. */
  lemma {:induction false} ToUpperIgnoresCase(s: string, t: string)
    requires |s| == |t|
    requires forall i :: 0 <= i < |s| ==> UpperChar(s[i]) == UpperChar(t[i])
    ensures ToUpper(s) == ToUpper(t)
  {
    if s != [] {
      ToUpperIgnoresCase(s[1..], t[1..]);
    }
  }
}

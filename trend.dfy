/** The market symbol and date range the entry form asks the price source for,
    and the (last, first) close pair read from that series. */
module Trend {
  import opened Ledger

  predicate IsLowerAscii(c: char) {
    'a' <= c <= 'z'
  }

  /** ASCII upper-casing of one character. */
  function UpperChar(c: char): char {
    if IsLowerAscii(c) then (c as int - 32) as char else c
  }

  /** Upper-casing of a ticker: lower-case ASCII letters are raised, every other
      character is kept. */
  function Upper(s: string): (u: string)
    ensures |u| == |s|
    ensures forall i | 0 <= i < |u| :: !IsLowerAscii(u[i])
    ensures forall i | 0 <= i < |s| :: IsLowerAscii(s[i]) || u[i] == s[i]
    ensures forall i | 0 <= i < |s| :: IsLowerAscii(s[i]) ==>
              u[i] == "ABCDEFGHIJKLMNOPQRSTUVWXYZ"[s[i] as int - 'a' as int]
  {
    seq(|s|, i requires 0 <= i < |s| => UpperChar(s[i]))
  }

  /** Upper-casing twice is upper-casing once. */
  lemma UpperIdempotent(s: string)
    ensures Upper(Upper(s)) == Upper(s)
  {
    var u := Upper(s);
    forall i | 0 <= i < |u|
      ensures Upper(u)[i] == u[i]
    {
      assert !IsLowerAscii(u[i]);
    }
  }

  /** The symbol handed to the price source: the upper-cased ticker, followed by
      "-" and the selected currency code when the stock type is CRYPTO. */
  function MarketSymbol(f: Form): (symbol: string)
    ensures f.stockType == Stock ==> symbol == Upper(f.ticker)
    ensures f.stockType == Crypto ==>
      |symbol| == |f.ticker| + 4 &&
      symbol[..|f.ticker|] == Upper(f.ticker) &&
      symbol[|f.ticker|] == '-' &&
      symbol[|f.ticker| + 1..] == CurrencyCode(f.currency)
    ensures forall i | 0 <= i < |symbol| :: !IsLowerAscii(symbol[i])
  {
    if f.stockType == Crypto then
      Upper(f.ticker) + "-" + CurrencyCode(f.currency)
    else
      Upper(f.ticker)
  }

  /** The letter case of the typed ticker never changes the symbol. */
  lemma SymbolIgnoresTickerCase(f: Form)
    ensures MarketSymbol(f.(ticker := Upper(f.ticker))) == MarketSymbol(f)
  {
    UpperIdempotent(f.ticker);
  }

  /** The date range of the form's trend: buy date to today when no sale date was
      typed, buy date to sale date when both sale inputs were typed, and nothing
      (an empty trend) when a sale date was typed without a share count. */
  function TrendRange(f: Form, today: Date): (range: Option<(Date, Date)>)
    ensures range.None? <==> f.dateSold != "" && f.sharesSold == ""
    ensures range.Some? ==> range.value.0 == f.dateBought
    ensures range.Some? ==> range.value.1 == if f.dateSold == "" then today else f.dateSold
  {
    if f.dateSold == "" then
      Some((f.dateBought, today))
    else if f.dateSold != "" && f.sharesSold != "" then
      Some((f.dateBought, f.dateSold))
    else
      None
  }

  /** The last and the first close of the form's trend, in that order; None where
      the trend is empty and reading its closes fails. */
  function GetPrice(m: Market, f: Form): (quote: Option<(real, real)>)
    ensures quote.Some? <==> f.dateSold == "" || f.sharesSold != ""
    ensures quote.Some? ==> quote.value.0 > 0.0 && quote.value.1 > 0.0
  {
    match TrendRange(f, m.today)
    case None => None
    case Some((start, end)) =>
      var closes := m.prices(MarketSymbol(f), start, end);
      Some((Last(closes), First(closes)))
  }
}

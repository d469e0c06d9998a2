/** Values of the portfolio ledger (one row per purchase, optionally with a sale)
    and the price source that the profit engine reads. */
module Ledger {

  datatype Option<T> = None | Some(value: T)

  /** One cell of the ledger as the table reader hands it over: text, a number,
      or a missing value (rendered as "nan"). */
  datatype Cell = Text(text: string) | Number(x: real) | NaN

  /** Does the cell print as "nan"?  True for a missing value and for the text "nan";
      a finite number never prints that way. */
  predicate ShowsAsNan(c: Cell) {
    c.NaN? || c == Text("nan")
  }

  datatype Currency = USD | CAD | EUR
  datatype StockType = Crypto | Stock
  datatype Account = CryptoAccount | Tfsa | Pers

  function CurrencyCode(c: Currency): string {
    match c
    case USD => "USD"
    case CAD => "CAD"
    case EUR => "EUR"
  }

  function StockTypeName(t: StockType): string {
    match t
    case Crypto => "CRYPTO"
    case Stock => "STOCK"
  }

  function AccountName(a: Account): string {
    match a
    case CryptoAccount => "CRYPTO"
    case Tfsa => "TFSA"
    case Pers => "PERS"
  }

  /** Dates are kept as the text the user typed ("2021-01-01"). */
  type Date = string

  /** A ledger row, in the column order CURRENCY, OWNER, STOCK TYPE, ACCOUNT, TICKER,
      DATE BOUGHT, SHARES BOUGHT, DATE SOLD, SHARES SOLD.  An unsold row has missing
      values (None) in the last two columns. */
  datatype Row = Row(
    currency: Currency,
    owner: string,
    stockType: StockType,
    account: Account,
    ticker: string,
    dateBought: Date,
    sharesBought: real,
    dateSold: Option<Date>,
    sharesSold: Option<real>)

  function DateSoldCell(r: Row): Cell {
    match r.dateSold
    case None => NaN
    case Some(d) => Text(d)
  }

  function SharesSoldCell(r: Row): Cell {
    match r.sharesSold
    case None => NaN
    case Some(x) => Number(x)
  }

  /** The entry form: three selections and six free-text inputs. */
  datatype Form = Form(
    currency: Currency,
    stockType: StockType,
    account: Account,
    ticker: string,
    owner: string,
    dateBought: string,
    sharesBought: string,
    dateSold: string,
    sharesSold: string)

  /** A downloaded close-price series: never empty, every close positive. */
  type Closes = s: seq<real> | |s| > 0 && forall i | 0 <= i < |s| :: s[i] > 0.0 witness [1.0]

  /** The price source: market symbol, first date, last date to the series of closes. */
  type PriceSource = (string, Date, Date) -> Closes

  /** What the engine reads from outside: the price source and today's date. */
  datatype Market = Market(prices: PriceSource, today: Date)

  function First(c: Closes): real { c[0] }

  function Last(c: Closes): real { c[|c| - 1] }

  /** The change over a series: last close minus first close. */
  function Change(c: Closes): real { Last(c) - First(c) }
}

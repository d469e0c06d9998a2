/** Profit of one position: the no-sale, partial-sale and full-sale cases. */
module ProfitCalc {
  import opened Ledger
  import Trend

  /** Profit of `sharesBought` shares of `symbol` bought on `dateBought`.
      A sale counts only when a sale date is given and the sold count is not zero.
      Sold shares are marked over buy date to sale date, kept shares over buy date
      to today.  A sale of more shares than were bought matches no case and yields
      no value. */
  function Profit(m: Market, symbol: string, dateBought: Date, dateSold: Date,
                  sharesBought: real, sharesSold: real): (profit: Option<real>)
    ensures profit.None? <==> dateSold != "" && sharesSold != 0.0 && sharesSold > sharesBought
  {
    if dateSold != "" && sharesSold != 0.0 then
      if sharesSold < sharesBought then
        var soldTrend := m.prices(symbol, dateBought, dateSold);
        var currentTrend := m.prices(symbol, dateBought, m.today);
        Some(Change(soldTrend) * sharesSold + Change(currentTrend) * (sharesBought - sharesSold))
      else if sharesBought == sharesSold then
        Some(Change(m.prices(symbol, dateBought, dateSold)) * sharesSold)
      else
        None
    else
      Some(Change(m.prices(symbol, dateBought, m.today)) * sharesBought)
  }

  /** A position with no sale date, or with zero shares sold, is marked to market
      over buy date to today on all its shares, whatever the other sale input holds. */
  lemma UnsoldProfit(m: Market, symbol: string, dateBought: Date, dateSold: Date,
                     sharesBought: real, sharesSold: real)
    requires dateSold == "" || sharesSold == 0.0
    ensures Profit(m, symbol, dateBought, dateSold, sharesBought, sharesSold).Some?
    ensures Profit(m, symbol, dateBought, dateSold, sharesBought, sharesSold).value
         == Change(m.prices(symbol, dateBought, m.today)) * sharesBought
  {
  }

  /** A partial sale is a full sale of the sold tranche plus an unsold position of
      the remaining shares. */
  lemma PartialSaleIsTwoTranches(m: Market, symbol: string, dateBought: Date, dateSold: Date,
                                 sharesBought: real, sharesSold: real)
    requires dateSold != "" && 0.0 < sharesSold < sharesBought
    ensures Profit(m, symbol, dateBought, dateSold, sharesBought, sharesSold).Some?
    ensures Profit(m, symbol, dateBought, dateSold, sharesBought, sharesSold).value
         == Profit(m, symbol, dateBought, dateSold, sharesSold, sharesSold).value
          + Profit(m, symbol, dateBought, "", sharesBought - sharesSold, 0.0).value
  {
  }

  /** The full-sale case agrees with the partial-sale formula at zero remaining
      shares: selling everything adds nothing for the kept shares. */
  lemma FullSaleIsPartialAtBoundary(m: Market, symbol: string, dateBought: Date, dateSold: Date,
                                    shares: real)
    requires dateSold != "" && shares != 0.0
    ensures Profit(m, symbol, dateBought, dateSold, shares, shares).Some?
    ensures Profit(m, symbol, dateBought, dateSold, shares, shares).value
         == Change(m.prices(symbol, dateBought, dateSold)) * shares
          + Change(m.prices(symbol, dateBought, m.today)) * (shares - shares)
  {
  }

  /** The form's (last, first) quote over its trend range gives, per share, the
      profit of an unsold position, or of a full sale of the same count over the sale
      range when both sale inputs were typed.  The typed sold count plays no part. */
  lemma QuoteMatchesProfit(m: Market, f: Form, shares: real)
    requires f.dateSold == "" || f.sharesSold != ""
    ensures Trend.GetPrice(m, f).Some?
    ensures var q := Trend.GetPrice(m, f).value;
      var profit := Profit(m, Trend.MarketSymbol(f), f.dateBought, f.dateSold, shares,
                           if f.dateSold == "" then 0.0 else shares);
      profit.Some? && profit.value == (q.0 - q.1) * shares
  {
    var symbol := Trend.MarketSymbol(f);
    var q := Trend.GetPrice(m, f).value;
    var closes := if f.dateSold == "" then m.prices(symbol, f.dateBought, m.today)
                  else m.prices(symbol, f.dateBought, f.dateSold);
    assert q == (Last(closes), First(closes));
    Scaled(q.0 - q.1, Change(closes), shares);
  }

  lemma Scaled(a: real, b: real, k: real)
    requires a == b
    ensures a * k == b * k
  {
  }

  /** Ten shares bought, never sold, closes 100 on the buy date and 150 today: profit 500. */
  lemma UnsoldScenario()
    ensures var m := Market((s: string, a: Date, b: Date) => [100.0, 120.0, 150.0], "2024-05-01");
      Profit(m, "AAA", "2021-01-01", "", 10.0, 0.0) == Some(500.0)
  {
  }

  /** Closes 100 to 120 up to the sale date 2021-06-01, 100 to 200 up to today. */
  function SaleScenarioMarket(): Market {
    Market((s: string, a: Date, b: Date) =>
             if b == "2021-06-01" then [100.0, 120.0] else [100.0, 200.0], "2024-05-01")
  }

  /** Ten shares bought, four sold: (120 - 100) * 4 + (200 - 100) * 6 = 680. */
  lemma PartialSaleScenario()
    ensures Profit(SaleScenarioMarket(), "BBB", "2021-01-01", "2021-06-01", 10.0, 4.0) == Some(680.0)
  {
  }

  /** The same partial sale typed into the entry form: the form's quote is taken over
      buy date to sale date and applied to all ten bought shares, giving 200, while the
      profit engine gives 680 for the position. */
  lemma QuoteIgnoresPartialSale()
    ensures var f := Form(USD, Stock, Tfsa, "bbb", "ann", "2021-01-01", "10", "2021-06-01", "4");
      var q := Trend.GetPrice(SaleScenarioMarket(), f);
      && q == Some((120.0, 100.0))
      && (q.value.0 - q.value.1) * 10.0 == 200.0
      && Profit(SaleScenarioMarket(), Trend.MarketSymbol(f), f.dateBought, f.dateSold, 10.0, 4.0) == Some(680.0)
  {
  }
}

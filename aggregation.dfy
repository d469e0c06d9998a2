/** The per-owner report: profit per account bucket and the value of unsold
    positions, converted once by the CAD/USD close. */
module Aggregation {
  import opened Ledger
  import opened Validation
  import opened ProfitCalc
  import opened Partition

  /** The price-source symbol of the exchange rate the investments total is divided by. */
  const FxSymbol: string := "CADUSD=X"

  /** One report line: owner, investments, and the CRYPTO, TFSA and PERS profits. */
  datatype ReportRow = ReportRow(owner: string, investments: real, crypto: real, tfsa: real, personal: real)

  /** The place of an account's total among the three profit accumulators. */
  function Slot(a: Account): (slot: nat)
    ensures slot < 3
  {
    match a
    case CryptoAccount => 0
    case Tfsa => 1
    case Pers => 2
  }

  /** A ledger row's symbol: the ticker as stored, with "-USD" appended when the row
      sits in the CRYPTO account (whatever its stock type and currency). */
  function RowSymbol(r: Row): string {
    if r.account == CryptoAccount then r.ticker + "-USD" else r.ticker
  }

  /** The symbol starts with the stored ticker; exactly the CRYPTO account adds the
      four characters "-USD". */
  lemma RowSymbolShape(r: Row)
    ensures |RowSymbol(r)| == |r.ticker| + if r.account == CryptoAccount then 4 else 0
    ensures RowSymbol(r)[..|r.ticker|] == r.ticker
    ensures r.account == CryptoAccount ==> RowSymbol(r)[|r.ticker|..] == "-USD"
  {
  }

  /** The row's sale columns both hold values (neither prints as "nan"). */
  predicate SaleRecorded(r: Row)
    ensures SaleRecorded(r) <==> r.dateSold.Some? && r.dateSold.value != "nan" && r.sharesSold.Some?
  {
    var cells := [DateSoldCell(r), SharesSoldCell(r)];
    assert cells[0] == DateSoldCell(r) && cells[1] == SharesSoldCell(r);
    Present(cells, false)
  }

  /** The row's sale date prints as "nan": the row counts towards investments. */
  predicate Unsold(r: Row) {
    ShowsAsNan(DateSoldCell(r))
  }

  /** A row is unsold exactly when its sale date is missing or is the text "nan". */
  lemma UnsoldIff(r: Row)
    ensures Unsold(r) <==> r.dateSold.None? || r.dateSold.value == "nan"
  {
  }

  /** A row's profit: with its sale columns when both hold values, otherwise as an
      unsold position.  None exactly when the row sells more shares than it bought. */
  function RowProfit(m: Market, r: Row): (profit: Option<real>)
    ensures profit.None? <==>
      SaleRecorded(r) && r.dateSold.value != "" && r.sharesSold.value != 0.0
      && r.sharesSold.value > r.sharesBought
  {
    if SaleRecorded(r) then
      Profit(m, RowSymbol(r), r.dateBought, r.dateSold.value, r.sharesBought, r.sharesSold.value)
    else
      Profit(m, RowSymbol(r), r.dateBought, "", r.sharesBought, 0.0)
  }

  predicate AllPriced(m: Market, pack: seq<Row>) {
    forall i | 0 <= i < |pack| :: RowProfit(m, pack[i]).Some?
  }

  /** The sum of the profits of the rows in account `a`. */
  function BucketSum(m: Market, pack: seq<Row>, a: Account): real
    requires AllPriced(m, pack)
  {
    if pack == [] then 0.0
    else
      var r := pack[|pack| - 1];
      BucketSum(m, pack[..|pack| - 1], a) + (if r.account == a then RowProfit(m, r).value else 0.0)
  }

  /** The sum of the profits of all rows. */
  function TotalProfit(m: Market, pack: seq<Row>): real
    requires AllPriced(m, pack)
  {
    if pack == [] then 0.0
    else TotalProfit(m, pack[..|pack| - 1]) + RowProfit(m, pack[|pack| - 1]).value
  }

  /** The value of one row's shares at the first close of its series from its buy date to today. */
  function PurchaseValue(m: Market, r: Row): real {
    First(m.prices(RowSymbol(r), r.dateBought, m.today)) * r.sharesBought
  }

  /** Purchase value plus profit is the value of the shares at today's close: for a
      row without a recorded sale the purchase value is taken at the first close of
      the same series the profit is measured over. */
  lemma PurchasePlusProfit(m: Market, r: Row)
    requires !SaleRecorded(r)
    ensures RowProfit(m, r).Some?
    ensures PurchaseValue(m, r) + RowProfit(m, r).value
         == Last(m.prices(RowSymbol(r), r.dateBought, m.today)) * r.sharesBought
  {
    var closes := m.prices(RowSymbol(r), r.dateBought, m.today);
    Distribute(Last(closes), First(closes), r.sharesBought);
  }

  lemma Distribute(last: real, first: real, k: real)
    ensures first * k + (last - first) * k == last * k
  {
  }

  /** The purchase value has the sign of the bought share count. */
  lemma PurchaseValueSign(m: Market, r: Row)
    ensures PurchaseValue(m, r) > 0.0 <==> r.sharesBought > 0.0
    ensures PurchaseValue(m, r) == 0.0 <==> r.sharesBought == 0.0
  {
    var close := First(m.prices(RowSymbol(r), r.dateBought, m.today));
    assert close > 0.0;
    if r.sharesBought > 0.0 {
      assert close * r.sharesBought > 0.0;
    } else if r.sharesBought < 0.0 {
      assert close * r.sharesBought < 0.0;
    }
  }

  /** The purchase values of the unsold rows, summed (before the exchange-rate division). */
  function Invested(m: Market, pack: seq<Row>): real {
    if pack == [] then 0.0
    else
      var r := pack[|pack| - 1];
      Invested(m, pack[..|pack| - 1]) + (if Unsold(r) then PurchaseValue(m, r) else 0.0)
  }

  /** The exchange-rate close: the last close of the CAD/USD series from the buy date
      of the owner's last row to today. */
  function FxClose(m: Market, pack: seq<Row>): (rate: real)
    requires pack != []
    ensures rate > 0.0
  {
    Last(m.prices(FxSymbol, pack[|pack| - 1].dateBought, m.today))
  }

  /** One owner's report line, or None when some row's profit is undefined (the
      aggregation then stops). */
  function OwnerSummary(m: Market, owner: string, pack: seq<Row>): Option<ReportRow>
    requires pack != []
  {
    if AllPriced(m, pack) then
      Some(ReportRow(owner, Invested(m, pack) / FxClose(m, pack),
                     BucketSum(m, pack, CryptoAccount), BucketSum(m, pack, Tfsa), BucketSum(m, pack, Pers)))
    else
      None
  }

  lemma SlotInjective(a: Account, b: Account)
    ensures Slot(a) == Slot(b) ==> a == b
  {
  }

  /** Extending a priced prefix of an owner's rows by one priced row. */
  lemma PrefixStep(m: Market, pack: seq<Row>, i: nat)
    requires i < |pack| && AllPriced(m, pack[..i]) && RowProfit(m, pack[i]).Some?
    ensures AllPriced(m, pack[..i + 1])
    ensures forall a: Account ::
              BucketSum(m, pack[..i + 1], a)
              == BucketSum(m, pack[..i], a) + (if pack[i].account == a then RowProfit(m, pack[i]).value else 0.0)
    ensures Invested(m, pack[..i + 1])
      == Invested(m, pack[..i]) + (if Unsold(pack[i]) then PurchaseValue(m, pack[i]) else 0.0)
  {
    assert pack[..i + 1] == pack[..i] + [pack[i]];
    assert pack[..i + 1][..i] == pack[..i];
  }

  /** The accumulators after the rows `done`: the three account totals, and the
      same totals behind the investments sum in the four-slot list. */
  predicate Tallied(m: Market, done: seq<Row>, prices: seq<real>, allProfits: seq<real>) {
    && AllPriced(m, done)
    && |prices| == 3 && |allProfits| == 4
    && (forall a: Account :: prices[Slot(a)] == BucketSum(m, done, a))
    && allProfits[1..] == prices
    && allProfits[0] == Invested(m, done)
  }

  /** Adding one priced row to its account's accumulator, and its purchase value to
      investments when it is unsold, keeps the accumulators in step with the rows. */
  lemma TallyStep(m: Market, pack: seq<Row>, i: nat, prices: seq<real>, allProfits: seq<real>,
                  profit: real, purchase: real, prices': seq<real>, allProfits': seq<real>)
    requires i < |pack| && Tallied(m, pack[..i], prices, allProfits)
    requires RowProfit(m, pack[i]) == Some(profit)
    requires purchase == if Unsold(pack[i]) then PurchaseValue(m, pack[i]) else 0.0
    requires var id := Slot(pack[i].account);
      && prices' == prices[id := prices[id] + profit]
      && allProfits' == allProfits[0 := allProfits[0] + purchase][id + 1 := prices'[id]]
    ensures Tallied(m, pack[..i + 1], prices', allProfits')
  {
    PrefixStep(m, pack, i);
    var row := pack[i];
    forall a: Account
      ensures prices'[Slot(a)] == BucketSum(m, pack[..i + 1], a)
    {
      SlotInjective(a, row.account);
    }
  }

  /** Walks one owner's rows in order, adding each row's profit to its account's
      accumulator and each unsold row's purchase value to investments, then divides
      investments by the exchange-rate close fetched with the last row's buy date. */
  method OwnerReport(m: Market, owner: string, pack: seq<Row>) returns (summary: Option<ReportRow>)
    requires pack != []
    ensures summary == OwnerSummary(m, owner, pack)
  {
    var allProfits: seq<real> := [0.0, 0.0, 0.0, 0.0];  // investments, CRYPTO, TFSA, PERS
    var prices: seq<real> := [0.0, 0.0, 0.0];
    var dateBought: Date := "";
    var i := 0;
    while i < |pack|
      invariant 0 <= i <= |pack|
      invariant Tallied(m, pack[..i], prices, allProfits)
      invariant i > 0 ==> dateBought == pack[i - 1].dateBought
    {
      var row := pack[i];
      dateBought := row.dateBought;
      var id := Slot(row.account);
      var symbol := RowSymbol(row);
      var recorded := NonNull([DateSoldCell(row), SharesSoldCell(row)], false);
      var profit: Option<real>;
      if recorded {
        assert SaleRecorded(row);
        profit := Profit(m, symbol, row.dateBought, row.dateSold.value, row.sharesBought, row.sharesSold.value);
      } else {
        assert !SaleRecorded(row);
        profit := Profit(m, symbol, row.dateBought, "", row.sharesBought, 0.0);
      }
      if profit.None? {
        assert RowProfit(m, pack[i]).None?;
        return None;
      }
      var price := 0.0;
      if ShowsAsNan(DateSoldCell(row)) {
        price := First(m.prices(symbol, dateBought, m.today)) * row.sharesBought;
      }
      ghost var done, before := prices, allProfits;
      prices := prices[id := prices[id] + profit.value];
      allProfits := allProfits[0 := allProfits[0] + price];
      allProfits := allProfits[id + 1 := prices[id]];
      TallyStep(m, pack, i, done, before, profit.value, price, prices, allProfits);
      i := i + 1;
    }
    assert pack[..i] == pack;
    var fx := Last(m.prices(FxSymbol, dateBought, m.today));
    allProfits := allProfits[0 := allProfits[0] / fx];
    summary := Some(ReportRow(owner, allProfits[0], allProfits[1], allProfits[2], allProfits[3]));
    assert prices[Slot(CryptoAccount)] == prices[0];
    assert prices[Slot(Tfsa)] == prices[1];
    assert prices[Slot(Pers)] == prices[2];
  }

  /** The report lines of the listed owners, in list order; None as soon as one
      owner's line is None. */
  function ReportsFor(m: Market, owners: seq<string>, rows: seq<Row>): Option<seq<ReportRow>>
    requires forall i | 0 <= i < |owners| :: RowsOf(rows, owners[i]) != []
  {
    if owners == [] then Some([])
    else
      var o := owners[|owners| - 1];
      match ReportsFor(m, owners[..|owners| - 1], rows)
      case None => None
      case Some(lines) =>
        match OwnerSummary(m, o, RowsOf(rows, o))
        case None => None
        case Some(line) => Some(lines + [line])
  }

  lemma ListedOwnersHaveRows(rows: seq<Row>)
    ensures forall i | 0 <= i < |Owners(rows)| :: RowsOf(rows, Owners(rows)[i]) != []
  {
    forall i | 0 <= i < |Owners(rows)| {
      OwnersHaveRows(rows, Owners(rows)[i]);
    }
  }

  /** The whole report: one line per owner, owners in first-seen order. */
  function Reports(m: Market, rows: seq<Row>): Option<seq<ReportRow>> {
    ListedOwnersHaveRows(rows);
    ReportsFor(m, Owners(rows), rows)
  }

  lemma {:induction false} ReportsForStopsAtFailure(m: Market, owners: seq<string>, rows: seq<Row>, k: nat)
    requires forall i | 0 <= i < |owners| :: RowsOf(rows, owners[i]) != []
    requires k <= |owners| && ReportsFor(m, owners[..k], rows).None?
    ensures ReportsFor(m, owners, rows).None?
    decreases |owners|
  {
    if k < |owners| {
      var init := owners[..|owners| - 1];
      assert init[..k] == owners[..k];
      ReportsForStopsAtFailure(m, init, rows, k);
    } else {
      assert owners[..k] == owners;
    }
  }

  /** Splits the ledger by owner and builds each owner's line in owner order; the
      run stops with no report when an owner's line cannot be built. */
  method CalculateAllProfits(m: Market, rows: seq<Row>) returns (report: Option<seq<ReportRow>>)
    ensures report == Reports(m, rows)
  {
    var owners, package := SplitByOwner(rows);
    ListedOwnersHaveRows(rows);
    var dat: seq<ReportRow> := [];
    var i := 0;
    while i < |owners|
      invariant 0 <= i <= |owners|
      invariant ReportsFor(m, owners[..i], rows) == Some(dat)
    {
      var owner := owners[i];
      assert owner in package;
      var pack := package[owner];
      assert pack == RowsOf(rows, owner) && pack != [];
      var summary := OwnerReport(m, owner, pack);
      ReportsForStep(m, owners, rows, i);
      if summary.None? {
        ReportsForStopsAtFailure(m, owners, rows, i + 1);
        return None;
      }
      dat := dat + [summary.value];
      i := i + 1;
    }
    assert owners[..i] == owners;
    report := Some(dat);
  }

  /** The report of one more owner extends the report of the owners before it. */
  lemma ReportsForStep(m: Market, owners: seq<string>, rows: seq<Row>, i: nat)
    requires forall j | 0 <= j < |owners| :: RowsOf(rows, owners[j]) != []
    requires i < |owners|
    ensures RowsOf(rows, owners[i]) != []
    ensures ReportsFor(m, owners[..i + 1], rows)
         == match ReportsFor(m, owners[..i], rows)
            case None => None
            case Some(lines) =>
              match OwnerSummary(m, owners[i], RowsOf(rows, owners[i]))
              case None => None
              case Some(line) => Some(lines + [line])
  {
    var next := owners[..i + 1];
    assert next[..i] == owners[..i] && next[i] == owners[i];
  }

  lemma PricedByMembership(m: Market, pack: seq<Row>)
    ensures AllPriced(m, pack) <==> forall r | r in pack :: RowProfit(m, r).Some?
  {
  }

  /** Every listed owner's rows have a profit. */
  predicate OwnersPriced(m: Market, owners: seq<string>, rows: seq<Row>) {
    forall i | 0 <= i < |owners| :: AllPriced(m, RowsOf(rows, owners[i]))
  }

  lemma {:induction false} ReportsForDefinedIff(m: Market, owners: seq<string>, rows: seq<Row>)
    requires forall i | 0 <= i < |owners| :: RowsOf(rows, owners[i]) != []
    ensures ReportsFor(m, owners, rows).Some? <==> OwnersPriced(m, owners, rows)
  {
    if owners != [] {
      var init := owners[..|owners| - 1];
      var o := owners[|owners| - 1];
      ReportsForDefinedIff(m, init, rows);
      assert owners == init + [o];
      assert OwnersPriced(m, owners, rows) <==> OwnersPriced(m, init, rows) && AllPriced(m, RowsOf(rows, o)) by {
        if OwnersPriced(m, owners, rows) {
          forall i | 0 <= i < |init| ensures AllPriced(m, RowsOf(rows, init[i])) {
            assert init[i] == owners[i];
          }
          assert AllPriced(m, RowsOf(rows, owners[|owners| - 1]));
        }
        if OwnersPriced(m, init, rows) && AllPriced(m, RowsOf(rows, o)) {
          forall i | 0 <= i < |owners| ensures AllPriced(m, RowsOf(rows, owners[i])) {
            if i < |init| {
              assert owners[i] == init[i];
            }
          }
        }
      }
    }
  }

  /** The report exists exactly when every row of the ledger has a profit, that is
      when no row sells more shares than it bought. */
  lemma ReportsDefinedIff(m: Market, rows: seq<Row>)
    ensures Reports(m, rows).Some? <==> AllPriced(m, rows)
  {
    var owners := Owners(rows);
    ListedOwnersHaveRows(rows);
    ReportsForDefinedIff(m, owners, rows);
    PricedByMembership(m, rows);
    OwnersExact(rows);
    assert OwnersPriced(m, owners, rows) <==> forall i | 0 <= i < |owners| :: AllPriced(m, RowsOf(rows, owners[i]));
    if AllPriced(m, rows) {
      forall i | 0 <= i < |owners|
        ensures AllPriced(m, RowsOf(rows, owners[i]))
      {
        RowsOfExact(rows, owners[i]);
        PricedByMembership(m, RowsOf(rows, owners[i]));
      }
    } else {
      var k :| 0 <= k < |rows| && RowProfit(m, rows[k]).None?;
      var o := rows[k].owner;
      assert HasOwner(rows, o);
      var i :| 0 <= i < |owners| && owners[i] == o;
      RowsOfExact(rows, o);
      PricedByMembership(m, RowsOf(rows, o));
      assert rows[k] in RowsOf(rows, o);
    }
  }

  lemma {:induction false} ReportsForLines(m: Market, owners: seq<string>, rows: seq<Row>)
    requires forall i | 0 <= i < |owners| :: RowsOf(rows, owners[i]) != []
    requires ReportsFor(m, owners, rows).Some?
    ensures |ReportsFor(m, owners, rows).value| == |owners|
    ensures forall i | 0 <= i < |owners| ::
              OwnerSummary(m, owners[i], RowsOf(rows, owners[i])) == Some(ReportsFor(m, owners, rows).value[i])
  {
    if owners != [] {
      var init := owners[..|owners| - 1];
      ReportsForLines(m, init, rows);
    }
  }

  /** Line i of the report belongs to the i-th owner in first-seen order; its CRYPTO,
      TFSA and PERS columns are the sums of that owner's row profits in each account,
      and its investments column is the purchase value of that owner's unsold rows
      divided by the exchange-rate close. */
  lemma ReportLines(m: Market, rows: seq<Row>)
    requires Reports(m, rows).Some?
    ensures var owners, lines := Owners(rows), Reports(m, rows).value;
      |lines| == |owners| &&
      forall i | 0 <= i < |lines| ::
        var pack := RowsOf(rows, owners[i]);
        && pack != []
        && AllPriced(m, pack)
        && lines[i].owner == owners[i]
        && lines[i].crypto == BucketSum(m, pack, CryptoAccount)
        && lines[i].tfsa == BucketSum(m, pack, Tfsa)
        && lines[i].personal == BucketSum(m, pack, Pers)
        && lines[i].investments == Invested(m, pack) / FxClose(m, pack)
  {
    ListedOwnersHaveRows(rows);
    ReportsForLines(m, Owners(rows), rows);
  }

  /** Bucket totals are additive over consecutive runs of rows. */
  lemma {:induction false} BucketSumAppend(m: Market, p: seq<Row>, q: seq<Row>, a: Account)
    requires AllPriced(m, p + q)
    ensures AllPriced(m, p) && AllPriced(m, q)
    ensures BucketSum(m, p + q, a) == BucketSum(m, p, a) + BucketSum(m, q, a)
    decreases |q|
  {
    if q == [] {
      assert p + q == p;
    } else {
      var init := q[..|q| - 1];
      assert (p + q)[..|p + q| - 1] == p + init;
      PricedPrefix(m, p + q, |p + init|);
      BucketSumAppend(m, p, init, a);
      forall i | 0 <= i < |q|
        ensures RowProfit(m, q[i]).Some?
      {
        if i < |init| {
          assert q[i] == init[i];
        } else {
          assert q[i] == (p + q)[|p| + i];
        }
      }
    }
  }

  /** A prefix of priced rows is priced. */
  lemma PricedPrefix(m: Market, pack: seq<Row>, k: nat)
    requires k <= |pack| && AllPriced(m, pack)
    ensures AllPriced(m, pack[..k])
  {
    forall i | 0 <= i < k
      ensures RowProfit(m, pack[..k][i]).Some?
    {
      assert pack[..k][i] == pack[i];
    }
  }

  /** Prices for the bucket scenario: closes move by 10, 20 and -5 for AAA, BBB and
      any other symbol. */
  function ScenarioMarket(): Market {
    Market((s: string, a: Date, b: Date) =>
             if s == "AAA" then [100.0, 110.0]
             else if s == "BBB" then [100.0, 120.0]
             else [100.0, 95.0], "2024-05-01")
  }

  function ScenarioRows(): seq<Row> {
    [Row(CAD, "ann", Stock, Tfsa, "AAA", "2021-01-01", 1.0, None, None),
     Row(CAD, "ann", Crypto, Tfsa, "BBB", "2021-02-01", 1.0, None, None),
     Row(CAD, "ann", Stock, Tfsa, "CCC", "2021-03-01", 1.0, None, None)]
  }

  /** Three unsold one-share TFSA positions with profits 10, 20 and -5: the TFSA total
      is 25 and the other two buckets stay zero. */
  lemma TfsaBucketScenario()
    ensures AllPriced(ScenarioMarket(), ScenarioRows())
    ensures BucketSum(ScenarioMarket(), ScenarioRows(), Tfsa) == 25.0
    ensures BucketSum(ScenarioMarket(), ScenarioRows(), CryptoAccount) == 0.0
    ensures BucketSum(ScenarioMarket(), ScenarioRows(), Pers) == 0.0
  {
    var m, pack := ScenarioMarket(), ScenarioRows();
    assert !SaleRecorded(pack[0]) && !SaleRecorded(pack[1]) && !SaleRecorded(pack[2]);
    assert RowProfit(m, pack[0]) == Some(10.0);
    assert RowProfit(m, pack[1]) == Some(20.0);
    assert RowProfit(m, pack[2]) == Some(-5.0);
    var p1, p2 := pack[..1], pack[..2];
    assert p1[..0] == [] && p2[..1] == p1 && pack[..2] == p2;
    forall a: Account
      ensures BucketSum(m, pack, a) == if a == Tfsa then 25.0 else 0.0
    {
      assert BucketSum(m, p1, a) == if a == Tfsa then 10.0 else 0.0;
      assert BucketSum(m, p2, a) == if a == Tfsa then 30.0 else 0.0;
    }
  }

  /** A bucket that no row selects stays zero. */
  lemma {:induction false} BucketWithoutRows(m: Market, pack: seq<Row>, a: Account)
    requires AllPriced(m, pack)
    requires forall i | 0 <= i < |pack| :: pack[i].account != a
    ensures BucketSum(m, pack, a) == 0.0
  {
    if pack != [] {
      BucketWithoutRows(m, pack[..|pack| - 1], a);
    }
  }

  /** Each row's profit lands in exactly one bucket: the three bucket totals add up
      to the total profit of the rows. */
  lemma {:induction false} BucketsPartitionProfit(m: Market, pack: seq<Row>)
    requires AllPriced(m, pack)
    ensures BucketSum(m, pack, CryptoAccount) + BucketSum(m, pack, Tfsa) + BucketSum(m, pack, Pers)
         == TotalProfit(m, pack)
  {
    if pack != [] {
      BucketsPartitionProfit(m, pack[..|pack| - 1]);
    }
  }

  /** Rows whose sale date holds a value contribute nothing to investments. */
  lemma {:induction false} InvestedCountsUnsoldOnly(m: Market, pack: seq<Row>)
    requires forall i | 0 <= i < |pack| :: !Unsold(pack[i])
    ensures Invested(m, pack) == 0.0
  {
    if pack != [] {
      InvestedCountsUnsoldOnly(m, pack[..|pack| - 1]);
    }
  }

  /** Investments are additive over consecutive runs of rows. */
  lemma {:induction false} InvestedAppend(m: Market, p: seq<Row>, q: seq<Row>)
    ensures Invested(m, p + q) == Invested(m, p) + Invested(m, q)
    decreases |q|
  {
    if q == [] {
      assert p + q == p;
    } else {
      var init := q[..|q| - 1];
      assert (p + q)[..|p + q| - 1] == p + init;
      InvestedAppend(m, p, init);
    }
  }

  /** With non-negative share counts the investments total is never negative. */
  lemma {:induction false} InvestedNonNegative(m: Market, pack: seq<Row>)
    requires forall i | 0 <= i < |pack| :: pack[i].sharesBought >= 0.0
    ensures Invested(m, pack) >= 0.0
  {
    if pack != [] {
      var r := pack[|pack| - 1];
      InvestedNonNegative(m, pack[..|pack| - 1]);
      var close := First(m.prices(RowSymbol(r), r.dateBought, m.today));
      assert close > 0.0;
      assert close * r.sharesBought >= 0.0;
    }
  }

  predicate SameButStockType(p: seq<Row>, q: seq<Row>) {
    |p| == |q| && forall i | 0 <= i < |p| :: q[i] == p[i].(stockType := q[i].stockType)
  }

  /** A row's profit, account and purchase value do not depend on its stock type. */
  lemma RowIgnoresStockType(m: Market, r: Row, s: Row)
    requires s == r.(stockType := s.stockType)
    ensures RowProfit(m, r) == RowProfit(m, s)
    ensures r.account == s.account && Unsold(r) == Unsold(s)
    ensures PurchaseValue(m, r) == PurchaseValue(m, s)
  {
    assert RowSymbol(r) == RowSymbol(s);
    assert DateSoldCell(r) == DateSoldCell(s) && SharesSoldCell(r) == SharesSoldCell(s);
  }

  lemma {:induction false} SumsIgnoreStockType(m: Market, p: seq<Row>, q: seq<Row>)
    requires SameButStockType(p, q)
    ensures AllPriced(m, p) <==> AllPriced(m, q)
    ensures AllPriced(m, p) ==> forall a: Account :: BucketSum(m, p, a) == BucketSum(m, q, a)
    ensures Invested(m, p) == Invested(m, q)
  {
    forall i | 0 <= i < |p|
      ensures RowProfit(m, p[i]) == RowProfit(m, q[i])
    {
      RowIgnoresStockType(m, p[i], q[i]);
    }
    if p != [] {
      var n := |p| - 1;
      var p', q' := p[..n], q[..n];
      assert SameButStockType(p', q') by {
        forall i | 0 <= i < n ensures q'[i] == p'[i].(stockType := q'[i].stockType) {
          assert p'[i] == p[i] && q'[i] == q[i];
        }
      }
      SumsIgnoreStockType(m, p', q');
      RowIgnoresStockType(m, p[n], q[n]);
    }
  }

  /** Bucket selection depends on the account alone: changing the stock type of any
      rows changes no column of the owner's line. */
  lemma StockTypeIrrelevant(m: Market, owner: string, p: seq<Row>, q: seq<Row>)
    requires p != [] && SameButStockType(p, q)
    ensures q != [] && OwnerSummary(m, owner, p) == OwnerSummary(m, owner, q)
  {
    SumsIgnoreStockType(m, p, q);
  }
}

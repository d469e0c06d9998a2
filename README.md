# Portfolio tracker profit engine, in Dafny

This project models the profit-accounting engine of a small portfolio tracker. The tracker
keeps a ledger of stock and crypto purchases. Each ledger row records a currency, an owner,
a stock type, an account (CRYPTO, TFSA or PERS), a ticker, a buy date and share count, and
optionally a sale date and share count. From this ledger the engine computes:

- the market symbol and date range the entry form asks the price source for, and the
  (last, first) close pair of that series (`Trend`);
- the null check used on form inputs and on a row's sale columns (`Validation`);
- the profit of one position in its three cases: no sale, partial sale and full sale
  (`ProfitCalc`);
- the split of the ledger by owner: owners in first-seen order, and each owner's rows
  in ledger order (`Partition`);
- the per-owner report. Each row's profit goes to its account's bucket. The purchase
  value of each unsold row is added to an investments total, which is divided once by
  the CAD/USD close (`Aggregation`);
- the line the SAVE action appends to the ledger (`SaveFormat`).

The price source is a parameter: a function from (symbol, first date, last date) to a
non-empty series of positive closes. It is bundled with today's date as a `Market`.
Ledger cells arrive from the table reader as `Text`, `Number` or a missing value `NaN`.
A cell "prints as nan" when it is missing or is the text `nan`.

Where a loop in the source updates variables, the model has a method with that loop.
Each method is proved equal to a specification function:

- `Validation.NonNull` is proved against `Present`.
- `Partition.SplitByOwner` is proved against `Owners` and `RowsOf`.
- `Aggregation.OwnerReport` is proved against `OwnerSummary`.
- `Aggregation.CalculateAllProfits` is proved against `Reports`.

Separate lemmas prove what the source promises about those functions.

The model follows what the code does, including these less obvious choices:

- An unsold row's investments value uses the FIRST close of its series from the buy
  date to today, not the last.
- The exchange rate is the last close of `CADUSD=X` from the buy date of the owner's
  LAST row to today.
- A profit is a sale whenever the sale date is non-empty and the sold count is non-zero.
  A negative sold count therefore takes the partial-sale branch.
- When a row sells more shares than it bought, no case matches and the profit has no
  value. The aggregation then fails for the whole run, not only for that owner. The
  model represents both failures as `None`.
- In the aggregation, a row's symbol gets `-USD` appended when its ACCOUNT is CRYPTO.
  The stock type is not consulted. The entry form appends `-<currency>` when its STOCK
  TYPE is CRYPTO.
- SAVE always writes `USD` as the currency column, whatever currency was selected.

## Model

| member | source | states |
|---|---|---|
| Trend.Upper | app.py:37-39 | upper-casing keeps the length, turns each lower-case ASCII letter into the same letter of the upper-case alphabet, and keeps every other character |
| Trend.UpperIdempotent | app.py:37-39 | upper-casing twice equals upper-casing once |
| Trend.MarketSymbol | app.py:35-39 | STOCK gives the upper-cased ticker; CRYPTO gives the upper-cased ticker, then '-', then the 3-letter currency code; no lower-case letter in the symbol |
| Trend.SymbolIgnoresTickerCase | app.py:35-39 | upper-casing the typed ticker first does not change the symbol |
| Trend.TrendRange | app.py:41-49 | buy date to today when no sale date was typed; buy date to sale date when both sale inputs were typed; no range exactly when a sale date was typed without a count |
| Trend.GetPrice | app.py:76-78 | a (last, first) quote exists exactly when a trend was fetched; both closes are positive |
| Validation.NonNull | app.py:80-90 | returns true iff no cell is absent: the empty text in empty-string mode, a cell printing as "nan" otherwise |
| ProfitCalc.Profit | app.py:93-113 | no value exactly when a sale date is given, the sold count is non-zero and it exceeds the bought count |
| ProfitCalc.UnsoldProfit | app.py:95-113 | with no sale date, or with zero shares sold, the profit is all bought shares times the change from the buy date to today, whatever the other sale input holds |
| ProfitCalc.PartialSaleIsTwoTranches | app.py:97-105 | a partial sale equals a full sale of the sold shares plus an unsold position of the kept shares |
| ProfitCalc.FullSaleIsPartialAtBoundary | app.py:107-109 | a full sale equals the partial-sale formula with zero kept shares |
| ProfitCalc.QuoteMatchesProfit | app.py:170-177 | the form's (last - first) times a share count equals the engine's profit of an unsold position of that count, or of a full sale of that count over the sale range when both sale inputs were typed |
| ProfitCalc.QuoteIgnoresPartialSale | app.py:170-177 | on a typed partial sale (10 bought, 4 sold) the form's figure is 200 while the engine's profit is 680: the form ignores the sold count |
| ProfitCalc.UnsoldScenario | app.py:111-113 | 10 shares, closes 100 to 150, never sold: profit 500 |
| ProfitCalc.PartialSaleScenario | app.py:97-105 | 10 bought, 4 sold at +20, 6 kept at +100: profit 680 |
| Partition.OwnersExact | app.py:120-137 | the owner list holds exactly the owners of some row, each once |
| Partition.OwnersGrowInOrder | app.py:125-137 | the owners of a ledger prefix are a prefix of the owner list (first-seen order) |
| Partition.RowsOfExact | app.py:142-151 | an owner's group holds exactly the ledger rows with that owner |
| Partition.RowsOfGrowInOrder | app.py:146-149 | an owner's rows in a ledger prefix are a prefix of that owner's group (ledger order) |
| Partition.OwnersHaveRows | app.py:142-151 | every listed owner has a non-empty group |
| Partition.SplitByOwner | app.py:118-153 | returns the owner list in first-seen order and a map whose keys are those owners and whose values are each owner's rows in ledger order |
| Partition.RegroupIsPermutation | app.py:142-152 | the groups of all owners together are a permutation of the ledger: nothing lost, nothing duplicated |
| Aggregation.Slot | app.py:69-73 | every account has an accumulator index below 3 |
| Aggregation.SlotInjective | app.py:69-73 | distinct accounts use distinct accumulators |
| Aggregation.RowSymbolShape | app.py:241-242 | a row's symbol is its stored ticker, followed by "-USD" exactly when the row's account is CRYPTO |
| Aggregation.UnsoldIff | app.py:255 | a row counts towards investments exactly when its sale date is missing or is the text "nan" |
| Aggregation.PurchasePlusProfit | app.py:51-54 | for a row without a recorded sale, purchase value plus profit is the shares' value at today's close, so the purchase value is taken at the first close of the buy-date-to-today series |
| Aggregation.PurchaseValueSign | app.py:51-54 | the purchase value has the sign of the bought share count |
| Aggregation.SaleRecorded | app.py:246 | a row counts as sold iff its sale date is present and not the text "nan" and its sold count is present |
| Aggregation.RowProfit | app.py:239-250 | a row's profit has no value exactly when the row records a sale of more shares than it bought |
| Aggregation.FxClose | app.py:259 | the exchange-rate close is positive, so the investments division is defined |
| Aggregation.TallyStep | app.py:246-257 | adding one row's profit to its account's accumulator, and its purchase value to investments when unsold, keeps every accumulator equal to its specification over the rows processed so far |
| Aggregation.OwnerReport | app.py:221-260 | one owner's line: each account's profit sum, and the unsold rows' purchase values divided by the exchange-rate close; no line when some row's profit is undefined |
| Aggregation.CalculateAllProfits | app.py:213-260 | the report equals one owner line per owner, in first-seen order; none when any line cannot be built |
| Aggregation.ReportsForStopsAtFailure | app.py:221-260 | once an owner's line fails, the whole report fails |
| Aggregation.ReportsDefinedIff | app.py:213-260 | the report exists exactly when every row of the ledger has a profit |
| Aggregation.ReportLines | app.py:220-260 | line i belongs to the i-th owner; its CRYPTO, TFSA and PERS columns are that owner's profit sums per account; its investments column is the purchase value of the owner's unsold rows divided by the exchange-rate close |
| Aggregation.BucketSumAppend | app.py:247-257 | bucket totals are additive over consecutive runs of rows |
| Aggregation.BucketWithoutRows | app.py:247-257 | a bucket that no row selects stays zero |
| Aggregation.BucketsPartitionProfit | app.py:239-257 | each row's profit lands in exactly one bucket: the three buckets sum to the total profit |
| Aggregation.TfsaBucketScenario | app.py:239-257 | three TFSA rows with profits 10, 20 and -5 give a TFSA total of 25, with CRYPTO and PERS at zero |
| Aggregation.InvestedCountsUnsoldOnly | app.py:255-256 | rows whose sale date holds a value add nothing to investments |
| Aggregation.InvestedAppend | app.py:255-256 | investments are additive over consecutive runs of rows |
| Aggregation.InvestedNonNegative | app.py:51-54 | with non-negative share counts, the investments total is never negative |
| Aggregation.RowIgnoresStockType | app.py:236-242 | a row's profit, account and purchase value do not depend on its stock type |
| Aggregation.SumsIgnoreStockType | app.py:236-257 | changing the stock types of rows changes neither pricing, nor any bucket sum, nor investments |
| Aggregation.StockTypeIrrelevant | app.py:236-260 | changing the stock types of an owner's rows leaves the owner's line unchanged |
| SaveFormat.SaveLine | app.py:193-203 | a line is written iff ticker, owner, buy date and bought count are all non-empty; the line ends with a newline |
| SaveFormat.SplitJoin | app.py:196-201 | splitting comma-joined fields gives back the fields when none holds a comma |
| SaveFormat.SaveLineReadsBack | app.py:196-201 | the written line reads back as nine columns in ledger order: "USD", owner, stock type, account, ticker, buy date, bought count, then the sale date and count when both were typed, or NULL, NULL |

## Left out

- The Streamlit page is not modelled: its widgets, the SUBMIT chart, the LOAD table and
  the result table and bar chart. Only the SUBMIT profit formula is covered, by
  `QuoteMatchesProfit`.
- The price downloads are not modelled. They are the `Market.prices` parameter, which
  always returns a non-empty series of positive closes. The index error on an empty
  series and a zero exchange rate are therefore outside the model.
- Today's date is the parameter `Market.today` rather than the wall clock.
- The Open, High and Low series are not modelled, because only closes feed the engine.
- Reading and appending the CSV files is not modelled, and neither is parsing numbers.
  The second, unused investments table is not modelled either.
- Printing is not modelled.
- Prices and share counts are exact reals. Floating-point rounding is not modelled.
- Aggregation.OwnerReport: the source's TypeError on an oversold row is modelled as `None`.
  `CalculateAllProfits` passes that `None` up for the whole run.
- Partition.SplitByOwner: the package entry `all_owners` is not modelled, so an owner
  literally named `all_owners` does not clash with the owner list.
- Partition.SplitByOwner: missing owner cells are not modelled. The source scans only
  the first `count()` rows, and `count()` skips missing cells. Owners are always text
  here, so every row is scanned.
- Trend.Upper: only ASCII letters are raised, not other Unicode letters.
- Unknown account names, which raise a KeyError in the source, are excluded by the
  `Account` type.
- The source does not check that a sale date follows the buy date, or that share counts
  are positive, and the model does not add these checks.
- SaveFormat.SaveLineReadsBack: stated only for inputs without commas. The source writes the
  typed text unescaped, so a comma in an owner, ticker, date or count yields a line with
  more than nine columns.
- ProfitCalc.QuoteMatchesProfit: the SUBMIT figure applies the buy-to-sale change to all
  bought shares and ignores the sold count. For a partial sale it therefore differs from
  the engine's profit, as `QuoteIgnoresPartialSale` shows.

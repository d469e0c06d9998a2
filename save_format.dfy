/** The ledger line the SAVE action appends for the entry form. */
module SaveFormat {
  import opened Ledger
  import opened Validation

  /** The form inputs that must not be empty for a line to be written. */
  function CriticalInformation(f: Form): seq<Cell> {
    [Text(f.ticker), Text(f.owner), Text(f.dateBought), Text(f.sharesBought),
     Text(AccountName(f.account)), Text(StockTypeName(f.stockType)), Text(CurrencyCode(f.currency))]
  }

  /** Comma-joined fields. */
  function JoinFields(fields: seq<string>): string
    requires fields != []
  {
    if |fields| == 1 then fields[0] else fields[0] + [','] + JoinFields(fields[1..])
  }

  /** Comma-separated fields of a line, as the table reader splits an unquoted line. */
  function SplitFields(s: string): (fields: seq<string>)
    ensures fields != []
  {
    if s == [] then [""]
    else
      var rest := SplitFields(s[1..]);
      if s[0] == ',' then [""] + rest else [[s[0]] + rest[0]] + rest[1..]
  }

  /** The nine columns written for the form: always "USD" as currency, the sale date
      and count when both were typed, "NULL" twice otherwise. */
  function SavedFields(f: Form): seq<string> {
    var sold := if f.dateSold != "" && f.sharesSold != "" then [f.dateSold, f.sharesSold] else ["NULL", "NULL"];
    ["USD", f.owner, StockTypeName(f.stockType), AccountName(f.account), f.ticker, f.dateBought, f.sharesBought]
      + sold
  }

  /** The line appended to the ledger, or None when a critical input is empty and
      nothing is written. */
  function SaveLine(f: Form): (line: Option<string>)
    ensures line.Some? <==> f.ticker != "" && f.owner != "" && f.dateBought != "" && f.sharesBought != ""
    ensures line.Some? ==> |line.value| > 0 && line.value[|line.value| - 1] == '\n'
  {
    var info := CriticalInformation(f);
    assert info[0] == Text(f.ticker) && info[1] == Text(f.owner);
    assert info[2] == Text(f.dateBought) && info[3] == Text(f.sharesBought);
    if Present(info, true) then
      Some(JoinFields(SavedFields(f)) + "\n")
    else
      None
  }

  lemma {:induction false} SplitPlain(a: string)
    requires ',' !in a
    ensures SplitFields(a) == [a]
  {
    if a != [] {
      SplitPlain(a[1..]);
      assert [a[0]] + a[1..] == a;
    }
  }

  lemma {:induction false} SplitAfterField(a: string, rest: string)
    requires ',' !in a
    ensures SplitFields(a + [','] + rest) == [a] + SplitFields(rest)
  {
    if a == [] {
      assert a + [','] + rest == [','] + rest;
      assert ([','] + rest)[1..] == rest;
    } else {
      var s := a + [','] + rest;
      assert s[1..] == a[1..] + [','] + rest;
      SplitAfterField(a[1..], rest);
      assert [a[0]] + a[1..] == a;
    }
  }

  /** Splitting a comma-joined line gives back its fields when no field holds a comma. */
  lemma {:induction false} SplitJoin(fields: seq<string>)
    requires fields != []
    requires forall i | 0 <= i < |fields| :: ',' !in fields[i]
    ensures SplitFields(JoinFields(fields)) == fields
  {
    if |fields| == 1 {
      SplitPlain(fields[0]);
    } else {
      SplitJoin(fields[1..]);
      SplitAfterField(fields[0], JoinFields(fields[1..]));
      assert [fields[0]] + fields[1..] == fields;
    }
  }

  /** Reading a written line back (without its newline) gives the nine columns in
      ledger column order, with "USD" whatever currency was selected and "NULL" in
      both sale columns unless both sale inputs were typed. */
  lemma SaveLineReadsBack(f: Form)
    requires SaveLine(f).Some?
    requires ',' !in f.owner && ',' !in f.ticker && ',' !in f.dateBought && ',' !in f.sharesBought
    requires ',' !in f.dateSold && ',' !in f.sharesSold
    ensures var line := SaveLine(f).value;
      var fields := SplitFields(line[..|line| - 1]);
      && |fields| == 9
      && fields[0] == "USD" && fields[1] == f.owner && fields[2] == StockTypeName(f.stockType)
      && fields[3] == AccountName(f.account) && fields[4] == f.ticker && fields[5] == f.dateBought
      && fields[6] == f.sharesBought
      && (if f.dateSold != "" && f.sharesSold != "" then fields[7] == f.dateSold && fields[8] == f.sharesSold
          else fields[7] == "NULL" && fields[8] == "NULL")
  {
    var fields := SavedFields(f);
    var line := SaveLine(f).value;
    assert line[..|line| - 1] == JoinFields(fields);
    assert ',' !in StockTypeName(f.stockType) && ',' !in AccountName(f.account);
    SplitJoin(fields);
  }
}

/** The ASN Bank importer (`ASNImporter`): identifies an ASN statement by the
    registered accounts' file patterns and turns each semicolon-separated row
    into a transaction on the own account, and on a registered counterparty. */
module Asn {
  import opened Ledger
  import opened Strings
  import opened Accounts

  const Institution := "ASN"
  /** The one account currency the importer accepts. */
  const Currency := "EUR"

  /** The importer holds the caller's registry, keyed by account number. */
  datatype Importer = Importer(accountsById: Registry)

  /** The ASN amount rewrite: the decimal comma becomes a period; every other
      character is kept. */
  function AmountText(s: string): (r: string)
    ensures |r| == |s| && ',' !in r
    ensures forall i :: 0 <= i < |s| && s[i] != ',' ==> r[i] == s[i]
    ensures forall i :: 0 <= i < |s| && s[i] == ',' ==> r[i] == '.'
  {
    ReplaceAll(s, ',', '.')
  }

  /** `row_to_txn`, with its failures in the order the source raises them. */
  function Convert(imp: Importer, row: Row, meta: Meta, p: Parsers): Result<Transaction> {
    var dateText :- Field(row, "Boekingsdatum");
    var date :- p.date(dateText).ToResult(BadDate(dateText));
    var currency :- Field(row, "Valutasoort rekening");
    var amountText :- Field(row, "Transactiebedrag");
    var units :- p.decimal(AmountText(amountText)).ToResult(BadAmount(AmountText(amountText)));
    var ownId :- Field(row, "Opdrachtgeversrekening");
    var acct :- Lookup(imp.accountsById, ownId).ToResult(UnknownAccount(ownId));
    var counterparty :- Field(row, "Tegenrekeningnummer");
    var counterpartyAcct := Lookup(imp.accountsById, counterparty);
    if currency != Currency then Err(UnexpectedCurrency(currency))
    else if currency != acct.currency then Err(OwnCurrencyMismatch(currency, acct.currency))
    else if counterpartyAcct.Some? && counterpartyAcct.value.currency != acct.currency then
      Err(CounterpartyCurrencyMismatch(acct.currency, counterpartyAcct.value.currency))
    else
      var name :- Field(row, "Naam tegenrekening");
      var narration :- Field(row, "Omschrijving");
      Ok(Transaction(meta, date, FlagFor(counterpartyAcct),
                     Some(if name != "" then name else counterparty),
                     narration, Postings(acct, counterpartyAcct, units)))
  }

  /** `row_to_txn` as the source writes it: the posting list starts with the
      own posting and the counterparty posting is appended to it. */
  method RowToTxn(imp: Importer, row: Row, meta: Meta, p: Parsers) returns (r: Result<Transaction>)
    ensures r == Convert(imp, row, meta, p)
  {
    var dateText :- Field(row, "Boekingsdatum");
    var date :- p.date(dateText).ToResult(BadDate(dateText));
    var currency :- Field(row, "Valutasoort rekening");
    var amountText :- Field(row, "Transactiebedrag");
    var units :- p.decimal(AmountText(amountText)).ToResult(BadAmount(AmountText(amountText)));
    var ownId :- Field(row, "Opdrachtgeversrekening");
    var acct :- Lookup(imp.accountsById, ownId).ToResult(UnknownAccount(ownId));
    var counterparty :- Field(row, "Tegenrekeningnummer");
    var counterpartyAcct := Lookup(imp.accountsById, counterparty);

    if currency != Currency {
      return Err(UnexpectedCurrency(currency));
    }
    if currency != acct.currency {
      return Err(OwnCurrencyMismatch(currency, acct.currency));
    }

    var postings := [Posting(acct.bean, Amount(units, acct.currency))];
    if counterpartyAcct.Some? {
      if counterpartyAcct.value.currency != acct.currency {
        return Err(CounterpartyCurrencyMismatch(acct.currency, counterpartyAcct.value.currency));
      }
      postings := postings + [Posting(counterpartyAcct.value.bean, Amount(Neg(units), acct.currency))];
    }

    assert postings == Postings(acct, counterpartyAcct, units);
    var flag := if counterpartyAcct.Some? then Transfer else Okay;
    var name :- Field(row, "Naam tegenrekening");
    var payee := if name != "" then name else counterparty;
    var narration :- Field(row, "Omschrijving");
    return Ok(Transaction(meta, date, flag, Some(payee), narration, postings));
  }

  /** The per-row step of `extract`'s list comprehension. */
  function Converter(imp: Importer, p: Parsers): (Row, Meta) -> Result<Transaction> {
    (row, meta) => Convert(imp, row, meta, p)
  }

  /** `extract`: the file must be identified as an ASN statement, then every
      row is converted. */
  method Extract(imp: Importer, fileName: string, rows: seq<Row>, matcher: Matcher, p: Parsers)
    returns (r: Result<seq<Transaction>>)
    ensures IdentifyIn(imp.accountsById, Institution, fileName, matcher).Err? ==>
      r == Err(IdentifyIn(imp.accountsById, Institution, fileName, matcher).error)
    ensures IdentifyIn(imp.accountsById, Institution, fileName, matcher) == Ok(None) ==> r == Err(NotIdentified)
    ensures IdentifyIn(imp.accountsById, Institution, fileName, matcher).Ok? &&
            IdentifyIn(imp.accountsById, Institution, fileName, matcher).value.Some? ==>
      r == ExtractAll(fileName, rows, Converter(imp, p))
  {
    r := ExtractStatement(imp.accountsById, Institution, fileName, rows, matcher, Converter(imp, p));
  }

  // ---------------------------------------------------------------------
  // Properties of a converted row

  /** An own account number the registry does not know fails the row. */
  lemma UnknownOwnAccountFails(imp: Importer, row: Row, meta: Meta, p: Parsers)
    requires "Opdrachtgeversrekening" !in row || Lookup(imp.accountsById, row["Opdrachtgeversrekening"]).None?
    ensures Convert(imp, row, meta, p).Err?
  {
  }

  /** A converted row was in EUR, and so was its own account. */
  lemma ConvertedRowIsEur(imp: Importer, row: Row, meta: Meta, p: Parsers)
    requires Convert(imp, row, meta, p).Ok?
    ensures "Valutasoort rekening" in row && row["Valutasoort rekening"] == Currency
    ensures "Opdrachtgeversrekening" in row && Lookup(imp.accountsById, row["Opdrachtgeversrekening"]).Some?
    ensures Lookup(imp.accountsById, row["Opdrachtgeversrekening"]).value.currency == Currency
    ensures forall q :: q in Convert(imp, row, meta, p).value.postings ==> q.units.currency == Currency
  {
  }

  /** A row whose decoding succeeds fails all the same when its currency is
      not EUR or not the own account's. */
  lemma CurrencyMismatchFails(imp: Importer, row: Row, meta: Meta, p: Parsers, acct: Account)
    requires "Opdrachtgeversrekening" in row && Lookup(imp.accountsById, row["Opdrachtgeversrekening"]) == Some(acct)
    requires "Valutasoort rekening" in row
    requires row["Valutasoort rekening"] != Currency || row["Valutasoort rekening"] != acct.currency
    ensures Convert(imp, row, meta, p).Err?
  {
  }

  /** An unregistered counterparty gives one posting, the row's units on the
      own account in its currency, flagged as an ordinary transaction. */
  lemma UnregisteredCounterpartyIsOrdinary(imp: Importer, row: Row, meta: Meta, p: Parsers)
    requires Convert(imp, row, meta, p).Ok?
    requires "Tegenrekeningnummer" in row && Lookup(imp.accountsById, row["Tegenrekeningnummer"]).None?
    ensures
      var t := Convert(imp, row, meta, p).value;
      var own := Lookup(imp.accountsById, row["Opdrachtgeversrekening"]).value;
      var units := p.decimal(AmountText(row["Transactiebedrag"])).value;
      t.postings == [Posting(own.bean, Amount(units, own.currency))] && t.flag == Okay
  {
  }

  /** A registered counterparty in the same currency gives two postings that
      cancel out, own account first, flagged as a transfer. */
  lemma RegisteredCounterpartyIsTransfer(imp: Importer, row: Row, meta: Meta, p: Parsers)
    requires Convert(imp, row, meta, p).Ok?
    requires "Tegenrekeningnummer" in row && Lookup(imp.accountsById, row["Tegenrekeningnummer"]).Some?
    ensures
      var t := Convert(imp, row, meta, p).value;
      var own := Lookup(imp.accountsById, row["Opdrachtgeversrekening"]).value;
      var other := Lookup(imp.accountsById, row["Tegenrekeningnummer"]).value;
      var units := p.decimal(AmountText(row["Transactiebedrag"])).value;
      && t.postings == [Posting(own.bean, Amount(units, own.currency)),
                        Posting(other.bean, Amount(Neg(units), own.currency))]
      && IsZero(Add(t.postings[0].units.number, t.postings[1].units.number))
      && t.flag == Transfer
  {
  }

  /** A registered counterparty in another currency fails the row. */
  lemma CounterpartyCurrencyMismatchFails(imp: Importer, row: Row, meta: Meta, p: Parsers, own: Account, other: Account)
    requires "Opdrachtgeversrekening" in row && Lookup(imp.accountsById, row["Opdrachtgeversrekening"]) == Some(own)
    requires "Tegenrekeningnummer" in row && Lookup(imp.accountsById, row["Tegenrekeningnummer"]) == Some(other)
    requires other.currency != own.currency
    ensures Convert(imp, row, meta, p).Err?
  {
  }

  /** The payee is the counterparty's name, or its account number when the
      name is empty; the narration is the description verbatim; the date is
      the parsed booking date and the metadata is the row's. */
  lemma PayeeAndNarration(imp: Importer, row: Row, meta: Meta, p: Parsers)
    requires Convert(imp, row, meta, p).Ok?
    ensures "Naam tegenrekening" in row && "Tegenrekeningnummer" in row && "Omschrijving" in row
    ensures
      var t := Convert(imp, row, meta, p).value;
      var name := row["Naam tegenrekening"];
      && t.payee == Some(if name != "" then name else row["Tegenrekeningnummer"])
      && t.narration == row["Omschrijving"]
      && t.date == p.date(row["Boekingsdatum"]).value
      && t.meta == meta
  {
  }

  /** A row converts exactly when all its columns are there, its date and
      amount parse, its own account is registered, the row and that account
      are in EUR, and a registered counterparty is in the same currency. */
  lemma ConvertSucceeds(imp: Importer, row: Row, meta: Meta, p: Parsers)
    ensures Convert(imp, row, meta, p).Ok? <==>
      && "Boekingsdatum" in row && p.date(row["Boekingsdatum"]).Some?
      && "Valutasoort rekening" in row
      && "Transactiebedrag" in row && p.decimal(AmountText(row["Transactiebedrag"])).Some?
      && "Opdrachtgeversrekening" in row && Lookup(imp.accountsById, row["Opdrachtgeversrekening"]).Some?
      && "Tegenrekeningnummer" in row
      && var own := Lookup(imp.accountsById, row["Opdrachtgeversrekening"]).value;
         var other := Lookup(imp.accountsById, row["Tegenrekeningnummer"]);
      && row["Valutasoort rekening"] == Currency
      && own.currency == Currency
      && (other.Some? ==> other.value.currency == own.currency)
      && "Naam tegenrekening" in row && "Omschrijving" in row
  {
  }

  // ---------------------------------------------------------------------
  // Worked examples: a coffee purchase of 12,50 EUR on a registered EUR
  // account, with no counterparty, a registered EUR counterparty, and a
  // registered USD counterparty.

  const Checking := Account("Assets:ASN:Checking", "EUR", Institution, None)
  const Savings := Account("Assets:ASN:Savings", "EUR", Institution, None)
  const Brokerage := Account("Assets:Broker:Cash", "USD", "Broker", None)

  function CoffeeRow(counterparty: string): Row {
    map["Boekingsdatum" := "15-03-2022",
        "Opdrachtgeversrekening" := "NL00BANK0123456789",
        "Tegenrekeningnummer" := counterparty,
        "Naam tegenrekening" := "",
        "Valutasoort rekening" := "EUR",
        "Transactiebedrag" := "-12,50",
        "Omschrijving" := "Coffee shop"]
  }

  lemma CoffeeAmountText()
    ensures AmountText("-12,50") == "-12.50"
  {
    var r := AmountText("-12,50");
    assert |r| == 6;
    assert r[0] == '-' && r[1] == '1' && r[2] == '2' && r[3] == '.' && r[4] == '5' && r[5] == '0';
  }

  lemma CoffeeRowFields(counterparty: string)
    ensures var row := CoffeeRow(counterparty);
      && "Boekingsdatum" in row && row["Boekingsdatum"] == "15-03-2022"
      && "Valutasoort rekening" in row && row["Valutasoort rekening"] == "EUR"
      && "Transactiebedrag" in row && AmountText(row["Transactiebedrag"]) == "-12.50"
      && "Opdrachtgeversrekening" in row && row["Opdrachtgeversrekening"] == "NL00BANK0123456789"
      && "Tegenrekeningnummer" in row && row["Tegenrekeningnummer"] == counterparty
      && "Naam tegenrekening" in row && row["Naam tegenrekening"] == ""
      && "Omschrijving" in row && row["Omschrijving"] == "Coffee shop"
  {
    CoffeeAmountText();
  }

  /** Without a registered counterparty: one posting of -12.50 EUR. */
  lemma CoffeeWithoutCounterparty(p: Parsers, meta: Meta)
    requires p.date("15-03-2022") == Some(Date(2022, 3, 15))
    requires p.decimal("-12.50") == Some(Decimal(-1250, 2))
    ensures Convert(Importer([Entry("NL00BANK0123456789", Checking)]), CoffeeRow(""), meta, p)
         == Ok(Transaction(meta, Date(2022, 3, 15), Okay, Some(""), "Coffee shop",
                           [Posting("Assets:ASN:Checking", Amount(Decimal(-1250, 2), "EUR"))]))
  {
    CoffeeRowFields("");
    var imp := Importer([Entry("NL00BANK0123456789", Checking)]);
    assert Lookup(imp.accountsById, "NL00BANK0123456789") == Some(Checking);
    assert Lookup(imp.accountsById, "") == None;
    ConvertSucceeds(imp, CoffeeRow(""), meta, p);
    UnregisteredCounterpartyIsOrdinary(imp, CoffeeRow(""), meta, p);
    PayeeAndNarration(imp, CoffeeRow(""), meta, p);
  }

  /** With a registered EUR counterparty: -12.50 EUR and +12.50 EUR, a transfer. */
  lemma CoffeeWithRegisteredCounterparty(p: Parsers, meta: Meta)
    requires p.date("15-03-2022") == Some(Date(2022, 3, 15))
    requires p.decimal("-12.50") == Some(Decimal(-1250, 2))
    ensures Convert(Importer([Entry("NL00BANK0123456789", Checking), Entry("NL00BANK9876543210", Savings)]),
                    CoffeeRow("NL00BANK9876543210"), meta, p)
         == Ok(Transaction(meta, Date(2022, 3, 15), Transfer, Some("NL00BANK9876543210"), "Coffee shop",
                           [Posting("Assets:ASN:Checking", Amount(Decimal(-1250, 2), "EUR")),
                            Posting("Assets:ASN:Savings", Amount(Decimal(1250, 2), "EUR"))]))
  {
    var row := CoffeeRow("NL00BANK9876543210");
    CoffeeRowFields("NL00BANK9876543210");
    var imp := Importer([Entry("NL00BANK0123456789", Checking), Entry("NL00BANK9876543210", Savings)]);
    assert Lookup(imp.accountsById, "NL00BANK0123456789") == Some(Checking);
    assert Lookup(imp.accountsById, "NL00BANK9876543210") == Some(Savings);
    ConvertSucceeds(imp, row, meta, p);
    RegisteredCounterpartyIsTransfer(imp, row, meta, p);
    PayeeAndNarration(imp, row, meta, p);
  }

  /** With a registered USD counterparty: the row fails, no transaction. */
  lemma CoffeeWithForeignCounterparty(p: Parsers, meta: Meta)
    requires p.date("15-03-2022") == Some(Date(2022, 3, 15))
    requires p.decimal("-12.50") == Some(Decimal(-1250, 2))
    ensures Convert(Importer([Entry("NL00BANK0123456789", Checking), Entry("US00BROKER", Brokerage)]),
                    CoffeeRow("US00BROKER"), meta, p)
         == Err(CounterpartyCurrencyMismatch("EUR", "USD"))
  {
    CoffeeRowFields("US00BROKER");
    var reg := [Entry("NL00BANK0123456789", Checking), Entry("US00BROKER", Brokerage)];
    assert Lookup(reg, "NL00BANK0123456789") == Some(Checking);
    assert Lookup(reg, "US00BROKER") == Some(Brokerage);
  }
}

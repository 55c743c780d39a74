/** The newer bunq importer (`BunqImporter` keyed by account id): identifies a
    bunq statement by the registered accounts' file patterns and turns each
    row into a transaction, with an optional `Counterparty` column. */
module Bunq {
  import opened Ledger
  import opened Strings
  import opened Accounts

  const Institution := "Bunq"

  datatype Importer = Importer(accountsById: Registry, bunqAccountIds: set<string>)

  /** `__init__`: keeps the registry and collects the ids of its bunq accounts. */
  function New(accountsById: Registry): (imp: Importer)
    ensures imp.accountsById == accountsById
    ensures forall id :: id in imp.bunqAccountIds <==>
      Lookup(accountsById, id).Some? && Lookup(accountsById, id).value.institution == Institution
  {
    var ids := IdsOf(accountsById, Institution);
    assert forall id :: id in ids ==> Lookup(accountsById, id).Some? && Lookup(accountsById, id).value.institution == Institution by {
      forall id | id in ids
        ensures Lookup(accountsById, id).Some? && Lookup(accountsById, id).value.institution == Institution
      {
        var i :| 0 <= i < |accountsById| && accountsById[i].id == id && accountsById[i].account.institution == Institution;
        LookupRegistered(accountsById, i);
      }
    }
    Importer(accountsById, ids)
  }

  /** What the three chained replacements do to one character: the comma and
      the period trade places, and a space becomes a period. */
  function SwapSeparator(c: char): char {
    if c == ',' then '.' else if c == '.' then ',' else if c == ' ' then '.' else c
  }

  /** `.replace(',', ' ').replace('.', ',').replace(' ', '.')` */
  function AmountText(s: string): (r: string)
    ensures |r| == |s| && ' ' !in r
    ensures forall i :: 0 <= i < |s| ==> r[i] == SwapSeparator(s[i])
  {
    ReplaceAll(ReplaceAll(ReplaceAll(s, ',', ' '), '.', ','), ' ', '.')
  }

  /** On a text without spaces the rewrite undoes itself. */
  lemma AmountTextInvolution(s: string)
    requires ' ' !in s
    ensures AmountText(AmountText(s)) == s
  {
    var r := AmountText(AmountText(s));
    assert forall i :: 0 <= i < |s| ==> r[i] == s[i] by {
      forall i | 0 <= i < |s| ensures r[i] == s[i] {
        assert s[i] != ' ';
      }
    }
  }

  /** The registered counterparty, if the row names one. */
  function CounterpartyAccount(imp: Importer, row: Row): Option<Account> {
    var counterparty := Get(row, "Counterparty");
    if counterparty.Some? then Lookup(imp.accountsById, counterparty.value) else None
  }

  /** `row_to_txn`, with its failures in the order the source raises them. */
  function Convert(imp: Importer, row: Row, meta: Meta, p: Parsers): Result<Transaction> {
    var ownId :- Field(row, "Account");
    var acct :- Lookup(imp.accountsById, ownId).ToResult(UnknownAccount(ownId));
    var dateText :- Field(row, "Date");
    var date :- p.date(dateText).ToResult(BadDate(dateText));
    var amountText :- Field(row, "Amount");
    var units :- p.decimal(AmountText(amountText)).ToResult(BadAmount(AmountText(amountText)));
    var desc :- Field(row, "Description");
    var counterparty := Get(row, "Counterparty");
    var counterpartyAcct := CounterpartyAccount(imp, row);
    if counterpartyAcct.Some? && counterpartyAcct.value.currency != acct.currency then
      Err(CounterpartyCurrencyMismatch(acct.currency, counterpartyAcct.value.currency))
    else
      var name :- Field(row, "Name");
      Ok(Transaction(meta, date, FlagFor(counterpartyAcct),
                     if name != "" then Some(name) else counterparty,
                     desc, Postings(acct, counterpartyAcct, units)))
  }

  /** `row_to_txn` as the source writes it: the own posting first, the
      counterparty posting appended when the counterparty is registered. */
  method RowToTxn(imp: Importer, row: Row, meta: Meta, p: Parsers) returns (r: Result<Transaction>)
    ensures r == Convert(imp, row, meta, p)
  {
    var ownId :- Field(row, "Account");
    var acct :- Lookup(imp.accountsById, ownId).ToResult(UnknownAccount(ownId));
    var dateText :- Field(row, "Date");
    var date :- p.date(dateText).ToResult(BadDate(dateText));
    var amountText :- Field(row, "Amount");
    var units :- p.decimal(AmountText(amountText)).ToResult(BadAmount(AmountText(amountText)));
    var desc :- Field(row, "Description");

    var postings := [Posting(acct.bean, Amount(units, acct.currency))];
    var counterparty := Get(row, "Counterparty");
    var counterpartyAcct := if counterparty.Some? then Lookup(imp.accountsById, counterparty.value) else None;
    if counterpartyAcct.Some? {
      if counterpartyAcct.value.currency != acct.currency {
        return Err(CounterpartyCurrencyMismatch(acct.currency, counterpartyAcct.value.currency));
      }
      postings := postings + [Posting(counterpartyAcct.value.bean, Amount(Neg(units), acct.currency))];
    }

    assert postings == Postings(acct, counterpartyAcct, units);
    var flag := if counterpartyAcct.Some? then Transfer else Okay;
    var name :- Field(row, "Name");
    var payee := if name != "" then Some(name) else counterparty;
    return Ok(Transaction(meta, date, flag, payee, desc, postings));
  }

  /** The per-row step of `extract`'s list comprehension. */
  function Converter(imp: Importer, p: Parsers): (Row, Meta) -> Result<Transaction> {
    (row, meta) => Convert(imp, row, meta, p)
  }

  /** `extract`: the file must be identified as a bunq statement, then every
      row is converted. */
  method Extract(imp: Importer, fileName: string, rows: seq<Row>, matcher: Matcher, p: Parsers)
    returns (r: Result<seq<Transaction>>)
    ensures IdentifyIn(imp.accountsById, Institution, fileName, matcher).Err? ==>
      r == Err(IdentifyIn(imp.accountsById, Institution, fileName, matcher).error)
    ensures IdentifyIn(imp.accountsById, Institution, fileName, matcher) == Ok(None) ==> r == Err(NotIdentified)
    ensures IdentifyIn(imp.accountsById, Institution, fileName, matcher).Ok? &&
            IdentifyIn(imp.accountsById, Institution, fileName, matcher).value.Some? ==>
      r == ExtractAll(fileName, rows, Converter(imp, p))
  {
    r := ExtractStatement(imp.accountsById, Institution, fileName, rows, matcher, Converter(imp, p));
  }

  // ---------------------------------------------------------------------
  // Properties

  /** `identify` answers only with the match of a registered bunq account
      whose pattern's `id` group names that very account. */
  lemma IdentifyOnlyBunq(imp: Importer, fileName: string, matcher: Matcher, m: Match)
    requires IdentifyIn(imp.accountsById, Institution, fileName, matcher) == Ok(Some(m))
    ensures exists i :: (0 <= i < |imp.accountsById| &&
      var e := imp.accountsById[i];
      && Lookup(imp.accountsById, e.id) == Some(e.account)
      && e.account.institution == Institution
      && e.account.fileMatchRe.Some?
      && matcher(e.account.fileMatchRe.value, fileName) == Some(m)
      && "id" in m.groups && m.groups["id"] == Some(e.id))
  {
    IdentifyFirst(imp.accountsById, Institution, fileName, matcher, m);
    var i :| 0 <= i < |imp.accountsById| && Selects(imp.accountsById[i], Institution, fileName, matcher, m) &&
             forall j :: 0 <= j < i ==> Probe(imp.accountsById[j], Institution, fileName, matcher) == Ok(None);
    LookupRegistered(imp.accountsById, i);
  }

  /** Everything `row_to_txn` needs besides the counterparty. */
  predicate Decodes(imp: Importer, row: Row, p: Parsers) {
    && "Account" in row && Lookup(imp.accountsById, row["Account"]).Some?
    && "Date" in row && p.date(row["Date"]).Some?
    && "Amount" in row && p.decimal(AmountText(row["Amount"])).Some?
    && "Description" in row
    && "Name" in row
  }

  /** A row converts exactly when it decodes and its counterparty, if
      registered, shares the own account's currency; no fixed currency is
      demanded. */
  lemma ConvertSucceeds(imp: Importer, row: Row, meta: Meta, p: Parsers)
    ensures Convert(imp, row, meta, p).Ok? <==>
      && Decodes(imp, row, p)
      && var other := CounterpartyAccount(imp, row);
         other.Some? ==> other.value.currency == Lookup(imp.accountsById, row["Account"]).value.currency
  {
  }

  /** A missing own account fails the row. */
  lemma UnknownOwnAccountFails(imp: Importer, row: Row, meta: Meta, p: Parsers)
    requires "Account" !in row || Lookup(imp.accountsById, row["Account"]).None?
    ensures Convert(imp, row, meta, p).Err?
  {
  }

  /** A missing `Counterparty` column or an unregistered counterparty never
      fails the row: it converts exactly when it decodes, into one posting of
      the row's units in the own account's currency, flagged as ordinary. */
  lemma UnregisteredCounterpartyIsOrdinary(imp: Importer, row: Row, meta: Meta, p: Parsers)
    requires "Counterparty" !in row || Lookup(imp.accountsById, row["Counterparty"]).None?
    ensures Convert(imp, row, meta, p).Ok? <==> Decodes(imp, row, p)
    ensures Convert(imp, row, meta, p).Ok? ==>
      var t := Convert(imp, row, meta, p).value;
      var own := Lookup(imp.accountsById, row["Account"]).value;
      var units := p.decimal(AmountText(row["Amount"])).value;
      t.postings == [Posting(own.bean, Amount(units, own.currency))] && t.flag == Okay
  {
  }

  /** A registered counterparty in the own account's currency gives two
      postings that cancel out, flagged as a transfer. */
  lemma RegisteredCounterpartyIsTransfer(imp: Importer, row: Row, meta: Meta, p: Parsers)
    requires Convert(imp, row, meta, p).Ok?
    requires "Counterparty" in row && Lookup(imp.accountsById, row["Counterparty"]).Some?
    ensures
      var t := Convert(imp, row, meta, p).value;
      var own := Lookup(imp.accountsById, row["Account"]).value;
      var other := Lookup(imp.accountsById, row["Counterparty"]).value;
      var units := p.decimal(AmountText(row["Amount"])).value;
      && t.postings == [Posting(own.bean, Amount(units, own.currency)),
                        Posting(other.bean, Amount(Neg(units), own.currency))]
      && IsZero(Add(t.postings[0].units.number, t.postings[1].units.number))
      && t.flag == Transfer
  {
  }

  /** A registered counterparty in another currency fails the row. */
  lemma CounterpartyCurrencyMismatchFails(imp: Importer, row: Row, meta: Meta, p: Parsers, own: Account, other: Account)
    requires "Account" in row && Lookup(imp.accountsById, row["Account"]) == Some(own)
    requires "Counterparty" in row && Lookup(imp.accountsById, row["Counterparty"]) == Some(other)
    requires other.currency != own.currency
    ensures Convert(imp, row, meta, p).Err?
  {
  }

  /** The payee is `Name` when non-empty, otherwise the counterparty cell (None
      when the column is missing); the narration is `Description` verbatim;
      every posting is in the own account's currency. */
  lemma PayeeAndNarration(imp: Importer, row: Row, meta: Meta, p: Parsers)
    requires Convert(imp, row, meta, p).Ok?
    ensures "Name" in row && "Description" in row && "Account" in row
    ensures
      var t := Convert(imp, row, meta, p).value;
      && t.payee == (if row["Name"] != "" then Some(row["Name"]) else Get(row, "Counterparty"))
      && t.narration == row["Description"]
      && t.meta == meta
      && forall q :: q in t.postings ==> q.units.currency == Lookup(imp.accountsById, row["Account"]).value.currency
  {
  }
}

# Bank-statement importers for beancount, modelled in Dafny

The repository converts CSV statement exports of two Dutch banks, ASN Bank and
bunq, into beancount transactions. Each importer takes one CSV row, already
split into a map from column name to cell text, and normalises it:

- it rewrites the amount text from the bank's locale into a decimal beancount's
  `D()` can read;
- it looks up the own account in the caller's registry (a missing own account
  is a hard failure);
- it looks up the counterparty, which may be unknown;
- it applies the posting rule. With no registered counterparty there is one
  posting, flagged OKAY. With a registered counterparty there are two postings,
  the second negated, flagged TRANSFER. A currency mismatch is a failure;
- it picks the payee, with a fallback.

Extraction maps this over the rows in file order and fails on the first bad
row. The newer importers first identify the file: they scan the registry for
the first account whose file pattern matches the name with an `id` group equal
to the account's key and which is held at the right institution.

Three importers are modelled:

| module | source | what |
|---|---|---|
| `Asn` | benfleis-beancount-importers/asn.py | `ASNImporter`: `,` becomes `.`, the account currency must be EUR |
| `Bunq` | benfleis-beancount-importers/bunq.py | newer `BunqImporter`: `,` and `.` swap places, optional `Counterparty` column |
| `LegacyBunq` | importers/bunq.py | older `BunqImporter`: fixed file-name pattern, first `,` becomes `.`, one posting |

They share three modules:

- `Ledger`: failures, exact decimals, transactions, rows and fail-fast extraction.
- `Strings`: Python's `str.replace` on single characters.
- `Accounts`: the ordered registry, the posting rule and the `identify` scan.

Every failure of the source is an exception. Here it is an `Err` with a
`Failure` value saying which one. For a row whose every cell is present, the
failures come in the order Python evaluates the code. Library code the model
cannot see is passed in as a parameter:

- `Parsers.decimal` stands for beancount's `D()`.
- `Parsers.date` stands for `strptime('%d-%m-%Y')` or `fromisoformat`.
- `Matcher` stands for `re.match` with a registered account's pattern.

The properties are stated over any such parsers, as long as the decimal parser
returns finite decimals.

Some behaviour of the code is easy to misread:

- The newer bunq importer checks no fixed currency. Only the ASN importer
  demands EUR.
- A currency mismatch raises AssertionError, which fails the row like any other error.
- ASN rewrites every `,` into `.`, so "1.234,56" becomes "1.234.56", not
  "1234.56". Whether that parses is up to `D()`.
- The ASN importer needs the `Tegenrekeningnummer` column to exist. Only the
  bunq importer treats a missing counterparty column as normal.
- The newer bunq payee can be None: this happens when `Name` is empty and there
  is no `Counterparty` column.

Each importer is a datatype, because its fields are set once in `__init__` and
never changed. The two `row_to_txn` functions that build their posting list by
appending to it have two forms. `Convert` is a function that specifies them.
`RowToTxn` is a method that appends to a local sequence variable (a reassignment
`postings := postings + [...]`), and it is proved equal to
`Convert`. Extraction is a list comprehension, so it uses the function.

## Model

| member | source | states |
|---|---|---|
| `Ledger.Field` | benfleis-beancount-importers/asn.py:72 | `row[name]`; no contract of its own, `Asn.ConvertSucceeds`, `Bunq.ConvertSucceeds` and `LegacyBunq.ConvertSucceeds` state that a row missing a needed column fails |
| `Ledger.Get` | benfleis-beancount-importers/bunq.py:62 | `row.get(name)`: the cell of an existing column, else None; no contract, it is read through `Bunq.UnregisteredCounterpartyIsOrdinary` and `Bunq.PayeeAndNarration` |
| `Ledger.Neg` | benfleis-beancount-importers/asn.py:87 | `-units`; no contract of its own, `Ledger.NegCancels` states that it cancels `units` |
| `Ledger.ExtractAll` | benfleis-beancount-importers/asn.py:105 | the list comprehension over the enumerated rows; no contract of its own, `Ledger.ExtractAllInOrder` states what it returns |
| `Ledger.ExtractAllInOrder` | benfleis-beancount-importers/asn.py:62-105 | extraction succeeds iff every row converts; then there is one transaction per row, in order, the i-th built from row i with metadata (file, i); otherwise the error is that of a failing row preceded only by rows that convert |
| `Ledger.NegCancels` | benfleis-beancount-importers/asn.py:86-87 | a decimal plus its negation is exactly zero |
| `Strings.ReplaceAll` | benfleis-beancount-importers/asn.py:73 | `str.replace` of one character keeps the length and replaces every occurrence, nothing else |
| `Strings.ReplaceFirst` | importers/bunq.py:57 | `str.replace(..., 1)` keeps the length and changes exactly the position of the first occurrence |
| `Accounts.Lookup` | benfleis-beancount-importers/asn.py:74-76 | `dict.get`: None iff no entry has the key, else the account of an entry with that key |
| `Accounts.LookupRegistered` | benfleis-beancount-importers/asn.py:74 | in a registry with distinct keys every registered id finds its own account |
| `Accounts.IdsOf` | benfleis-beancount-importers/bunq.py:22 | an id is collected iff some entry has that id and an account at the institution |
| `Accounts.Postings` | benfleis-beancount-importers/asn.py:81-88 | own posting of `units` first; a second, counterparty posting iff one is registered, summing to zero with the first; all in the own account's currency |
| `Accounts.FlagFor` | benfleis-beancount-importers/asn.py:93 | `FLAG_TRANSFER if counterparty_acct else FLAG_OKAY`; no contract of its own, `Asn.UnregisteredCounterpartyIsOrdinary`, `Asn.RegisteredCounterpartyIsTransfer` and their `Bunq` counterparts state the flag of a converted row |
| `Accounts.Probe` | benfleis-beancount-importers/asn.py:48-50 | one loop step raises iff the pattern matches without an `id` group, and selects a match iff pattern, `id` group and institution all fit |
| `Accounts.Identify` | benfleis-beancount-importers/asn.py:46-51 | the loop with early return computes the registry scan `IdentifyIn` |
| `Accounts.IdentifyFirst` | benfleis-beancount-importers/asn.py:46-51 | the scan returns the first selecting entry's match, provided no earlier entry raises; it returns None iff every entry is skipped; a KeyError comes from the first raising entry |
| `Accounts.IdentifyIn` | benfleis-beancount-importers/asn.py:46-51 | the registry scan of `identify`; no contract of its own, `Accounts.IdentifyFirst` characterises it and `Accounts.Identify` computes it |
| `Accounts.ExtractStatement` | benfleis-beancount-importers/asn.py:58-105 | `extract` of both newer importers (the same code at bunq.py:38-85): an identify error propagates, an unidentified file fails the `assert`, an identified file yields the in-order row extraction with the given converter |
| `Asn.AmountText` | benfleis-beancount-importers/asn.py:73 | the rewrite keeps the length, leaves no `,`, turns each `,` into `.` and keeps every other character |
| `Asn.RowToTxn` | benfleis-beancount-importers/asn.py:69-100 | the imperative row conversion (posting list extended step by step) yields exactly `Convert` |
| `Asn.Convert` | benfleis-beancount-importers/asn.py:69-100 | `row_to_txn`, its checks in Python's evaluation order; no contract of its own, the `Asn` lemmas below state its properties and `Asn.ConvertSucceeds` when it succeeds |
| `Asn.Extract` | benfleis-beancount-importers/asn.py:58-105 | `extract` with the ASN institution and converter: an identify error propagates, an unidentified file fails, an identified file yields `ExtractAll` with the ASN converter, which `Ledger.ExtractAllInOrder` describes |
| `Asn.ConvertSucceeds` | benfleis-beancount-importers/asn.py:70-100 | a row converts iff its columns exist, date and amount parse, the own account is registered, row and account are in EUR and a registered counterparty has the same currency |
| `Asn.UnknownOwnAccountFails` | benfleis-beancount-importers/asn.py:74 | an unregistered (or missing) `Opdrachtgeversrekening` fails the row |
| `Asn.ConvertedRowIsEur` | benfleis-beancount-importers/asn.py:72-79 | a converted row, its own account and all its postings are in EUR |
| `Asn.CurrencyMismatchFails` | benfleis-beancount-importers/asn.py:78-79 | a row whose currency is not EUR, or not the own account's, fails |
| `Asn.UnregisteredCounterpartyIsOrdinary` | benfleis-beancount-importers/asn.py:81-93 | an unregistered counterparty gives exactly one posting, `units` on the own account in its currency, flag OKAY |
| `Asn.RegisteredCounterpartyIsTransfer` | benfleis-beancount-importers/asn.py:84-93 | a registered counterparty gives exactly own `+units` then counterparty `-units`, which sum to zero, flag TRANSFER |
| `Asn.CounterpartyCurrencyMismatchFails` | benfleis-beancount-importers/asn.py:84-85 | a registered counterparty in another currency fails the row |
| `Asn.PayeeAndNarration` | benfleis-beancount-importers/asn.py:90-95 | payee is `Naam tegenrekening` if non-empty, else `Tegenrekeningnummer`; narration is `Omschrijving`; date and metadata are the row's |
| `Asn.CoffeeWithoutCounterparty` | benfleis-beancount-importers/asn.py:69-100 | worked example: "-12,50" with no registered counterparty is one posting of -12.50 EUR, flag OKAY |
| `Asn.CoffeeWithRegisteredCounterparty` | benfleis-beancount-importers/asn.py:69-100 | worked example: with a registered EUR counterparty, -12.50 and +12.50 EUR, flag TRANSFER |
| `Asn.CoffeeWithForeignCounterparty` | benfleis-beancount-importers/asn.py:84-85 | worked example: with a registered USD counterparty the row fails, no transaction |
| `Bunq.New` | benfleis-beancount-importers/bunq.py:20-22 | `bunq_account_ids` is exactly the set of registry keys whose account's institution is `Bunq` |
| `Bunq.AmountText` | benfleis-beancount-importers/bunq.py:54 | the three chained replacements map `,` to `.`, `.` to `,`, space to `.`, keep every other character and leave no space |
| `Bunq.AmountTextInvolution` | benfleis-beancount-importers/bunq.py:54 | on text without spaces the rewrite applied twice gives the original back |
| `Bunq.RowToTxn` | benfleis-beancount-importers/bunq.py:49-80 | the imperative row conversion (posting list extended step by step) yields exactly `Convert` |
| `Bunq.Convert` | benfleis-beancount-importers/bunq.py:49-80 | `row_to_txn`, its checks in Python's evaluation order; no contract of its own, the `Bunq` lemmas below state its properties and `Bunq.ConvertSucceeds` when it succeeds |
| `Bunq.Extract` | benfleis-beancount-importers/bunq.py:38-85 | `extract` with the bunq institution and converter: an identify error propagates, an unidentified file fails, an identified file yields `ExtractAll` with the bunq converter, which `Ledger.ExtractAllInOrder` describes |
| `Bunq.IdentifyOnlyBunq` | benfleis-beancount-importers/bunq.py:24-30 | a match is returned only for a registered account held at `Bunq` whose pattern matches the name with an `id` group equal to its key |
| `Bunq.ConvertSucceeds` | benfleis-beancount-importers/bunq.py:49-80 | a row converts iff it decodes (columns, registered own account, date, amount) and a registered counterparty shares the own currency; no fixed currency is required |
| `Bunq.UnknownOwnAccountFails` | benfleis-beancount-importers/bunq.py:51 | an unregistered (or missing) `Account` fails the row |
| `Bunq.UnregisteredCounterpartyIsOrdinary` | benfleis-beancount-importers/bunq.py:59-73 | with no `Counterparty` column or an unregistered one the row converts iff it decodes, into one posting of `units` in the own currency, flag OKAY |
| `Bunq.RegisteredCounterpartyIsTransfer` | benfleis-beancount-importers/bunq.py:65-73 | a registered counterparty gives own `+units` then counterparty `-units` in the own currency, summing to zero, flag TRANSFER |
| `Bunq.CounterpartyCurrencyMismatchFails` | benfleis-beancount-importers/bunq.py:65-66 | a registered counterparty in another currency fails the row |
| `Bunq.PayeeAndNarration` | benfleis-beancount-importers/bunq.py:55-75 | payee is `Name` if non-empty, else the `Counterparty` cell or None; narration is `Description`; every posting is in the own account's currency |
| `LegacyBunq.ByIban` | importers/bunq.py:30 | the dict comprehension `{ a.iban: a for a in accounts }`; no contract of its own, `LegacyBunq.ByIbanKeys`, `LegacyBunq.ByIbanLastWins` and `LegacyBunq.LastWithIban` state its keys and values |
| `LegacyBunq.ByIbanKeys` | importers/bunq.py:30 | the keys of `accounts_by_iban` are exactly the IBANs of the given accounts |
| `LegacyBunq.ByIbanLastWins` | importers/bunq.py:30 | an IBAN maps to the last given account that has it |
| `LegacyBunq.LastWithIban` | importers/bunq.py:30 | every value of `accounts_by_iban` is a given account, filed under its own IBAN |
| `LegacyBunq.New` | importers/bunq.py:27-30 | `accounts` is the root plus the extra accounts; `accounts_by_iban` is keyed by the extra accounts' IBANs only, each mapped to an extra account with that IBAN |
| `LegacyBunq.RootIndexedOnlyIfPassed` | importers/bunq.py:29-30 | the root's IBAN is a key iff some extra account has it, in particular when the root is passed again |
| `LegacyBunq.AfterLastSlash` | importers/bunq.py:21 | the result is the slash-free suffix after the last `/`, or all of the text if it has none |
| `LegacyBunq.Identify` | importers/bunq.py:32-33 | whether `match_re` matches the file name, written out by hand; no contract of its own, `LegacyBunq.IdentifyMatchesPattern` states that it agrees with the pattern |
| `LegacyBunq.IdentifyMatchesPattern` | importers/bunq.py:20-33 | the hand-written name test accepts exactly the names the anchored pattern matches: an optional directory prefix, `dddd-dd-dd_dd-dd-dd_bunq-statement.csv`, then the end or a final line break |
| `LegacyBunq.AmountText` | importers/bunq.py:57 | only the first `,` becomes `.`; later commas and all other characters are kept; a text without `,` is unchanged |
| `LegacyBunq.Convert` | importers/bunq.py:53-75 | `row_to_txn`, its checks in Python's evaluation order; no contract of its own, `LegacyBunq.ConvertSucceeds`, `LegacyBunq.UnknownAccountFails` and `LegacyBunq.SinglePosting` state its properties |
| `LegacyBunq.ConvertSucceeds` | importers/bunq.py:53-75 | a row converts iff its columns exist, its date and amount parse and its `Account` IBAN is registered |
| `LegacyBunq.UnknownAccountFails` | importers/bunq.py:58 | an IBAN not in `accounts_by_iban` fails the row |
| `LegacyBunq.SinglePosting` | importers/bunq.py:59-73 | one posting of `units` on the named account in its currency, flag OKAY, payee `Name` verbatim, narration `Description` verbatim |
| `LegacyBunq.Extract` | importers/bunq.py:77 | the list comprehension over the enumerated rows; no contract of its own, `LegacyBunq.ExtractInOrder` states what it returns |
| `LegacyBunq.ExtractInOrder` | importers/bunq.py:46-77 | one transaction per row, in order, the i-th built from row i with metadata (file, i); it succeeds iff every row converts |

## Left out

- Opening the file and `csv.DictReader`: the rows come in as a sequence of maps from column name to cell text.
- Short rows: `csv.DictReader` fills the missing cells of a short row with None, and the model treats those cells as missing columns, so the row fails with `MissingField`. Python turns some such rows into transactions: an ASN row cut off before `Omschrijving` gets the narration None (asn.py:95); a bunq row cut off before `Description` gets the narration None, and one cut off before `Name` gets the counterparty (or None) as payee (bunq.py:55,74; importers/bunq.py:69-70). The model does not produce these transactions.
- The `assert` statements (asn.py:60,78-79,85; bunq.py:40,66) are taken as always enabled. Under `python -O` they are removed, and then a currency mismatch or an unidentified file does not fail.
- Logging: a side effect only. The newer importers log a failed row before re-raising (asn.py:102, bunq.py:82); the older one logs every row at error level (importers/bunq.py:54).
- Date parsing (`strptime`, `fromisoformat`), beancount's `D()` and the regular-expression engine of the newer importers: library code. They are parameters, so every property holds for any matcher and any parser that returns finite decimals.
- `file_date` of the newer importers: it only parses the `end_date` group of the identified match.
- `file_name` of the older importer: it references an undefined `path` and raises.
- `file_account` of the older importer: it returns the root's ledger name and has no logic.
- The commented-out `extract_` and `extract__`, and the unimplemented multi-currency conversion.
- beancount's `Posting` and `Transaction` internals: local datatypes hold the fields the importers set. Tags and links are always empty and are not modelled. Cost, price and posting flags are always None and are not modelled.
- An account object is assumed truthy, so `if counterparty_acct:` tests only whether the lookup found an account.
- `Ledger.Neg`: decimals are finite and negation is exact here. Python's Decimal differs in three ways. `D()` returns NaN or Infinity for cells such as "NaN" or "inf", and no amount rewrite changes them. Unary minus applies the decimal context and rounds to 28 significant digits. Negation can produce a negative zero. On NaN, on infinities and on amounts with more than 28 significant digits the source's two postings need not sum to zero, while `Ledger.NegCancels`, `Asn.RegisteredCounterpartyIsTransfer` and `Bunq.RegisteredCounterpartyIsTransfer` state that they always do.
- LegacyBunq.StatementShape: `\d` is read as an ASCII digit, while Python's `re` also accepts other Unicode decimal digits.

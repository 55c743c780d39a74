/** The older bunq importer (`BunqImporter(root, *accounts)`): accepts files
    named like bunq's own statement exports and turns each row into a single
    posting on the registered account whose IBAN the row names. */
module LegacyBunq {
  import opened Ledger
  import opened Strings

  /** An account of this importer, keyed by its IBAN. */
  datatype Account = Account(iban: string, bean: string, currency: string)

  datatype Importer = Importer(root: Account, accounts: set<Account>, accountsByIban: map<string, Account>)

  /** `{a.iban: a for a in accounts}`, built in list order. */
  function ByIban(accounts: seq<Account>): map<string, Account> {
    if accounts == [] then map[]
    else
      var n := |accounts| - 1;
      ByIban(accounts[..n])[accounts[n].iban := accounts[n]]
  }

  /** The keys are exactly the IBANs of the list. */
  lemma {:induction false} ByIbanKeys(accounts: seq<Account>, iban: string)
    ensures iban in ByIban(accounts) <==> exists i :: 0 <= i < |accounts| && accounts[i].iban == iban
  {
    if accounts != [] {
      var n := |accounts| - 1;
      var pre := accounts[..n];
      ByIbanKeys(pre, iban);
      if iban != accounts[n].iban {
        if exists i :: 0 <= i < |accounts| && accounts[i].iban == iban {
          var i :| 0 <= i < |accounts| && accounts[i].iban == iban;
          assert pre[i] == accounts[i];
        }
        if iban in ByIban(accounts) {
          var i :| 0 <= i < |pre| && pre[i].iban == iban;
          assert accounts[i] == pre[i];
        }
      }
    }
  }

  /** An IBAN maps to the last account of the list that has it: a later
      account replaces an earlier one. */
  lemma {:induction false} ByIbanLastWins(accounts: seq<Account>, i: nat)
    requires i < |accounts|
    requires forall j :: i < j < |accounts| ==> accounts[j].iban != accounts[i].iban
    ensures accounts[i].iban in ByIban(accounts) && ByIban(accounts)[accounts[i].iban] == accounts[i]
  {
    var n := |accounts| - 1;
    if i < n {
      var pre := accounts[..n];
      assert pre[i] == accounts[i];
      assert forall j :: i < j < |pre| ==> pre[j] == accounts[j];
      ByIbanLastWins(pre, i);
    }
  }

  /** `__init__(root, *accounts)`: `accounts` holds the root and the extra
      accounts; `accounts_by_iban` knows the IBANs of the extra accounts only. */
  function New(root: Account, extra: seq<Account>): (imp: Importer)
    ensures imp.root == root
    ensures forall a :: a in imp.accounts <==> a == root || a in extra
    ensures forall iban :: iban in imp.accountsByIban <==> exists a :: a in extra && a.iban == iban
    ensures forall iban :: iban in imp.accountsByIban ==>
      imp.accountsByIban[iban] in extra && imp.accountsByIban[iban].iban == iban
  {
    var byIban := ByIban(extra);
    forall iban ensures iban in byIban <==> exists a :: a in extra && a.iban == iban {
      ByIbanKeys(extra, iban);
    }
    forall iban | iban in byIban ensures byIban[iban] in extra && byIban[iban].iban == iban {
      LastWithIban(extra, iban);
    }
    Importer(root, {root} + (set a | a in extra), byIban)
  }

  lemma {:induction false} LastWithIban(accounts: seq<Account>, iban: string)
    requires iban in ByIban(accounts)
    ensures ByIban(accounts)[iban] in accounts && ByIban(accounts)[iban].iban == iban
  {
    var n := |accounts| - 1;
    if accounts[n].iban != iban {
      LastWithIban(accounts[..n], iban);
    }
  }

  /** The root account is looked up by IBAN only when it is passed again
      among the extra accounts (or another account shares its IBAN). */
  lemma RootIndexedOnlyIfPassed(root: Account, extra: seq<Account>)
    ensures root.iban in New(root, extra).accountsByIban <==> exists a :: a in extra && a.iban == root.iban
    ensures root in extra ==> root.iban in New(root, extra).accountsByIban
  {
  }

  // ---------------------------------------------------------------------
  // The file name pattern
  //   ^(.*/)?\d{4}-\d{2}-\d{2}_\d{2}-\d{2}-\d{2}_bunq-statement[.]csv$

  predicate IsDigit(c: char) { '0' <= c <= '9' }

  /** Where the pattern wants a digit, the template holds '#'. */
  const Template: string := "####-##-##_##-##-##_bunq-statement.csv"

  /** The base name bunq gives its statements, date and time of the export. */
  predicate StatementShape(s: string) {
    && |s| == |Template|
    && forall i :: 0 <= i < |s| ==> if Template[i] == '#' then IsDigit(s[i]) else s[i] == Template[i]
  }

  /** The part of `s` after its last '/', or all of `s` when it has none. */
  function AfterLastSlash(s: string): (r: string)
    ensures '/' !in r
    ensures |r| <= |s| && r == s[|s| - |r|..]
    ensures |r| < |s| ==> s[|s| - |r| - 1] == '/'
  {
    if s == [] then []
    else if s[|s| - 1] == '/' then []
    else
      var r := AfterLastSlash(s[..|s| - 1]);
      assert s[..|s| - 1][|s| - 1 - |r|..] + [s[|s| - 1]] == s[|s| - 1 - |r|..];
      r + [s[|s| - 1]]
  }

  /** The name without the one line break that `$` may skip at its end. */
  function WithoutFinalNewline(name: string): string {
    if |name| > 0 && name[|name| - 1] == '\n' then name[..|name| - 1] else name
  }

  /** `identify`, the pattern written out by hand: the name, less a final line
      break, has no line break, and its part after the last '/' has the
      statement shape. */
  function Identify(fileName: string): bool {
    var body := WithoutFinalNewline(fileName);
    '\n' !in body && StatementShape(AfterLastSlash(body))
  }

  // The optional leading group of the pattern: empty, or one line ending in a slash.
  predicate DirectoryPrefix(p: string) {
    p == [] || (p[|p| - 1] == '/' && '\n' !in p)
  }

  /** The regular expression read directly: a directory prefix, the statement
      base name, then the end of the text or a final line break. */
  ghost predicate PatternMatches(name: string) {
    exists k :: 0 <= k <= |name| && DirectoryPrefix(name[..k]) &&
      (StatementShape(name[k..]) || (k < |name| && name[|name| - 1] == '\n' && StatementShape(name[k..|name| - 1])))
  }

  lemma ShapeHasNoSeparators(c: string)
    requires StatementShape(c)
    ensures '/' !in c && '\n' !in c && |c| > 0 && c[|c| - 1] == 'v'
  {
    assert Template[|Template| - 1] == 'v';
    forall i | 0 <= i < |c| ensures c[i] != '/' && c[i] != '\n' {
      assert Template[i] != '/' && Template[i] != '\n';
    }
  }

  lemma {:induction false} AfterLastSlashOfJoin(p: string, c: string)
    requires '/' !in c
    requires p == [] || p[|p| - 1] == '/'
    ensures AfterLastSlash(p + c) == c
    decreases |c|
  {
    if c == [] {
      assert p + c == p;
    } else {
      var n := |c| - 1;
      assert (p + c)[..|p + c| - 1] == p + c[..n];
      AfterLastSlashOfJoin(p, c[..n]);
      assert c[..n] + [c[n]] == c;
    }
  }

  lemma IdentifyImpliesPattern(name: string)
    requires Identify(name)
    ensures PatternMatches(name)
  {
    var body := WithoutFinalNewline(name);
    var base := AfterLastSlash(body);
    var k := |body| - |base|;
    var prefix := name[..k];
    assert prefix == body[..k];
    assert DirectoryPrefix(prefix) by {
      if k > 0 {
        assert prefix[k - 1] == '/';
        forall i | 0 <= i < k ensures prefix[i] != '\n' { assert prefix[i] == body[i]; }
      }
    }
    if body == name {
      assert name[k..] == base;
    } else {
      assert name[k..|name| - 1] == base;
    }
  }

  lemma PatternImpliesIdentify(name: string, k: nat)
    requires k <= |name| && DirectoryPrefix(name[..k])
    requires StatementShape(name[k..]) || (k < |name| && name[|name| - 1] == '\n' && StatementShape(name[k..|name| - 1]))
    ensures Identify(name)
  {
    var body := WithoutFinalNewline(name);
    var newline := |name| > 0 && name[|name| - 1] == '\n';
    if newline && StatementShape(name[k..]) {
      ShapeHasNoSeparators(name[k..]);
      assert false;
    }
    var c := if newline then name[k..|name| - 1] else name[k..];
    ShapeHasNoSeparators(c);
    assert body == name[..k] + c;
    AfterLastSlashOfJoin(name[..k], c);
    forall i | 0 <= i < |body| ensures body[i] != '\n' {
      if i < k { assert body[i] == name[..k][i]; } else { assert body[i] == c[i - k]; }
    }
  }

  /** The hand-written test accepts exactly the names the regular expression
      matches. */
  lemma IdentifyMatchesPattern(name: string)
    ensures Identify(name) <==> PatternMatches(name)
  {
    if Identify(name) {
      IdentifyImpliesPattern(name);
    }
    if PatternMatches(name) {
      var k :| 0 <= k <= |name| && DirectoryPrefix(name[..k]) &&
        (StatementShape(name[k..]) || (k < |name| && name[|name| - 1] == '\n' && StatementShape(name[k..|name| - 1])));
      PatternImpliesIdentify(name, k);
    }
  }

  // ---------------------------------------------------------------------
  // Rows

  /** `.replace(',', '.', 1)`: only the first comma becomes a period. */
  function AmountText(s: string): (r: string)
    ensures ',' !in s ==> r == s
    ensures |r| == |s|
    ensures forall i :: 0 <= i < |s| && s[i] != ',' ==> r[i] == s[i]
    ensures forall i :: 0 <= i < |s| && s[i] == ',' ==> r[i] == if ',' in s[..i] then ',' else '.'
  {
    var r := ReplaceFirst(s, ',', '.');
    assert ',' !in s ==> r == s by {
      if ',' !in s {
        assert forall i :: 0 <= i < |s| ==> r[i] == s[i];
      }
    }
    r
  }

  /** `row_to_txn`, with its failures in the order the source raises them:
      D() parses the amount only after the account lookup. */
  function Convert(imp: Importer, row: Row, meta: Meta, p: Parsers): Result<Transaction> {
    var dateText :- Field(row, "Date");
    var date :- p.date(dateText).ToResult(BadDate(dateText));
    var amountCell :- Field(row, "Amount");
    var amountText := AmountText(amountCell);
    var iban :- Field(row, "Account");
    var account :- if iban in imp.accountsByIban then Ok(imp.accountsByIban[iban]) else Err(UnknownAccount(iban));
    var units :- p.decimal(amountText).ToResult(BadAmount(amountText));
    var payee :- Field(row, "Name");
    var narration :- Field(row, "Description");
    Ok(Transaction(meta, date, Okay, Some(payee), narration,
                   [Posting(account.bean, Amount(units, account.currency))]))
  }

  /** `extract`: `[row_to_txn(row) for row in rows()]`. */
  function Extract(imp: Importer, fileName: string, rows: seq<Row>, p: Parsers): Result<seq<Transaction>> {
    ExtractAll(fileName, rows, (row, meta) => Convert(imp, row, meta, p))
  }

  /** A row converts exactly when its columns are there, its date and amount
      parse and its IBAN is registered. */
  lemma ConvertSucceeds(imp: Importer, row: Row, meta: Meta, p: Parsers)
    ensures Convert(imp, row, meta, p).Ok? <==>
      && "Date" in row && p.date(row["Date"]).Some?
      && "Amount" in row && "Account" in row && row["Account"] in imp.accountsByIban
      && p.decimal(AmountText(row["Amount"])).Some?
      && "Name" in row && "Description" in row
  {
  }

  /** An IBAN the importer was not given fails the row. */
  lemma UnknownAccountFails(imp: Importer, row: Row, meta: Meta, p: Parsers)
    requires "Account" in row && row["Account"] !in imp.accountsByIban
    ensures Convert(imp, row, meta, p).Err?
  {
  }

  /** Every transaction is one posting of the row's units on the named
      account, in that account's currency, flagged as ordinary; the payee is
      `Name` verbatim and the narration `Description` verbatim. */
  lemma SinglePosting(imp: Importer, row: Row, meta: Meta, p: Parsers)
    requires Convert(imp, row, meta, p).Ok?
    ensures "Account" in row && row["Account"] in imp.accountsByIban && "Amount" in row
    ensures "Name" in row && "Description" in row
    ensures
      var t := Convert(imp, row, meta, p).value;
      var account := imp.accountsByIban[row["Account"]];
      var units := p.decimal(AmountText(row["Amount"])).value;
      && t.postings == [Posting(account.bean, Amount(units, account.currency))]
      && t.flag == Okay
      && t.payee == Some(row["Name"])
      && t.narration == row["Description"]
      && t.meta == meta
  {
  }

  /** One transaction per row, in file order, the i-th tagged with row index i;
      the first failing row aborts the extraction. */
  lemma {:induction false} ExtractInOrder(imp: Importer, fileName: string, rows: seq<Row>, p: Parsers)
    ensures Extract(imp, fileName, rows, p).Ok? <==>
      forall i :: 0 <= i < |rows| ==> Convert(imp, rows[i], Meta(fileName, i), p).Ok?
    ensures Extract(imp, fileName, rows, p).Ok? ==>
      var ts := Extract(imp, fileName, rows, p).value;
      |ts| == |rows| &&
      forall i :: 0 <= i < |rows| ==> ts[i] == Convert(imp, rows[i], Meta(fileName, i), p).value
  {
    ExtractAllInOrder(fileName, rows, (row, meta) => Convert(imp, row, meta, p));
  }
}

/** Shared vocabulary of the importers: the failure-compatible wrappers, the exact
    decimal amounts, the ledger transaction they produce, the CSV row as a map
    from column name to cell text, and extraction as a fail-fast map over rows. */
module Ledger {

  datatype Option<+T> = None | Some(value: T) {
    /** The failure a Python KeyError / ValueError stands for when this is None */
    function ToResult(e: Failure): Result<T> {
      match this
      case Some(v) => Ok(v)
      case None => Err(e)
    }
  }

  /** Every way a row, a file or a registry lookup raises in the importers. */
  datatype Failure =
    | MissingField(field: string)                        // KeyError on the row
    | BadDate(text: string)                              // the date parser rejects the cell
    | BadAmount(text: string)                            // D() rejects the rewritten amount
    | UnknownAccount(id: string)                         // KeyError on the account registry
    | UnexpectedCurrency(currency: string)               // the row is not in the one supported currency
    | OwnCurrencyMismatch(row: string, account: string)  // the row's currency is not the own account's
    | CounterpartyCurrencyMismatch(own: string, counterparty: string)
    | MissingIdGroup(pattern: string)                    // KeyError on groupdict()['id']
    | NotIdentified                                      // extract's assert that identify matched

  datatype Result<+T> = Ok(value: T) | Err(error: Failure) {
    predicate IsFailure() { Err? }
    function PropagateFailure<U>(): Result<U> requires Err? { Err(error) }
    function Extract(): T requires Ok? { value }
  }

  function Pow10(n: nat): nat {
    if n == 0 then 1 else 10 * Pow10(n - 1)
  }

  /** An exact, finite decimal number digits * 10^(-exponent). Like Python's
      Decimal it keeps its number of fractional digits, so 1.5 and 1.50 are
      different representations; unlike it, the exponent is never positive,
      so `Decimal('1E+2')` is only representable as 100. */
  datatype Decimal = Decimal(digits: int, exponent: nat)

  /** Unary minus of a Decimal: the sign flips, the exponent is kept. */
  function Neg(d: Decimal): Decimal {
    Decimal(-d.digits, d.exponent)
  }

  /** Exact sum, aligned on the larger exponent. */
  function Add(a: Decimal, b: Decimal): Decimal {
    var e := if a.exponent < b.exponent then b.exponent else a.exponent;
    Decimal(a.digits * Pow10(e - a.exponent) + b.digits * Pow10(e - b.exponent), e)
  }

  predicate IsZero(d: Decimal) { d.digits == 0 }

  /** A calendar date, as the date parsers produce it. */
  datatype Date = Date(year: int, month: int, day: int)

  /** The library parsers the importers call: beancount's D() and the date
      parser of each export dialect. Both are partial: None is the exception. */
  datatype Parsers = Parsers(decimal: string -> Option<Decimal>, date: string -> Option<Date>)

  /** beancount's FLAG_OKAY and FLAG_TRANSFER */
  datatype Flag = Okay | Transfer

  datatype Amount = Amount(number: Decimal, currency: string)

  /** A posting on a ledger account (its beancount name, `bean`). */
  datatype Posting = Posting(account: string, units: Amount)

  /** The metadata every row carries: source file name and zero-based row index. */
  datatype Meta = Meta(filename: string, lineno: nat)

  datatype Transaction = Transaction(
    meta: Meta,
    date: Date,
    flag: Flag,
    payee: Option<string>,
    narration: string,
    postings: seq<Posting>)

  /** One CSV row, keyed by the header's column names. */
  type Row = map<string, string>

  /** `row[name]`: the cell, or the KeyError for a column the header lacks. */
  function Field(row: Row, name: string): Result<string> {
    if name in row then Ok(row[name]) else Err(MissingField(name))
  }

  /** `row.get(name)`: the cell, or None for a missing column. */
  function Get(row: Row, name: string): Option<string> {
    if name in row then Some(row[name]) else None
  }

  /** The transactions of rows[..], the first of which has index `first` in its
      file; evaluation stops at the first row that fails. */
  function ExtractFrom(file: string, rows: seq<Row>, first: nat, convert: (Row, Meta) -> Result<Transaction>)
    : Result<seq<Transaction>>
    decreases |rows|
  {
    if rows == [] then Ok([])
    else
      var t :- convert(rows[0], Meta(file, first));
      var ts :- ExtractFrom(file, rows[1..], first + 1, convert);
      Ok([t] + ts)
  }

  /** `[row_to_txn(row) for row in rows()]`, each row tagged with its index. */
  function ExtractAll(file: string, rows: seq<Row>, convert: (Row, Meta) -> Result<Transaction>)
    : Result<seq<Transaction>>
  {
    ExtractFrom(file, rows, 0, convert)
  }

  lemma {:induction false} ExtractFromSucceeds(file: string, rows: seq<Row>, first: nat, convert: (Row, Meta) -> Result<Transaction>)
    ensures ExtractFrom(file, rows, first, convert).Ok?
        <==> forall i :: 0 <= i < |rows| ==> convert(rows[i], Meta(file, first + i)).Ok?
    ensures ExtractFrom(file, rows, first, convert).Ok? ==>
      var ts := ExtractFrom(file, rows, first, convert).value;
      |ts| == |rows| &&
      forall i :: 0 <= i < |rows| ==> ts[i] == convert(rows[i], Meta(file, first + i)).value
  {
    if rows != [] {
      ExtractFromSucceeds(file, rows[1..], first + 1, convert);
      forall i | 0 < i < |rows|
        ensures rows[i] == rows[1..][i - 1] && first + i == (first + 1) + (i - 1)
      {
      }
    }
  }

  lemma {:induction false} ExtractFromFails(file: string, rows: seq<Row>, first: nat, convert: (Row, Meta) -> Result<Transaction>, e: Failure)
    requires ExtractFrom(file, rows, first, convert) == Err(e)
    ensures exists i :: 0 <= i < |rows| && convert(rows[i], Meta(file, first + i)) == Err(e) &&
                        forall j :: 0 <= j < i ==> convert(rows[j], Meta(file, first + j)).Ok?
  {
    if convert(rows[0], Meta(file, first)).Ok? {
      ExtractFromFails(file, rows[1..], first + 1, convert, e);
      var i :| 0 <= i < |rows[1..]| && convert(rows[1..][i], Meta(file, first + 1 + i)) == Err(e) &&
        forall j :: 0 <= j < i ==> convert(rows[1..][j], Meta(file, first + 1 + j)).Ok?;
      assert convert(rows[i + 1], Meta(file, first + (i + 1))) == Err(e);
      forall j | 0 <= j < i + 1
        ensures convert(rows[j], Meta(file, first + j)).Ok?
      {
        if j > 0 { assert rows[j] == rows[1..][j - 1]; }
      }
    } else {
      assert convert(rows[0], Meta(file, first + 0)) == Err(e);
    }
  }

  /** Extraction yields one transaction per row, in file order, the i-th made
      from rows[i] with metadata (file, i); it fails exactly when some row
      fails, and then with the error of the first failing row. */
  lemma {:induction false} ExtractAllInOrder(file: string, rows: seq<Row>, convert: (Row, Meta) -> Result<Transaction>)
    ensures ExtractAll(file, rows, convert).Ok?
        <==> forall i :: 0 <= i < |rows| ==> convert(rows[i], Meta(file, i)).Ok?
    ensures ExtractAll(file, rows, convert).Ok? ==>
      var ts := ExtractAll(file, rows, convert).value;
      |ts| == |rows| &&
      forall i :: 0 <= i < |rows| ==> ts[i] == convert(rows[i], Meta(file, i)).value
    ensures ExtractAll(file, rows, convert).Err? ==>
      exists i :: 0 <= i < |rows| && convert(rows[i], Meta(file, i)) == Err(ExtractAll(file, rows, convert).error) &&
                  forall j :: 0 <= j < i ==> convert(rows[j], Meta(file, j)).Ok?
  {
    ExtractFromSucceeds(file, rows, 0, convert);
    var r := ExtractAll(file, rows, convert);
    if r.Err? {
      ExtractFromFails(file, rows, 0, convert, r.error);
    }
  }

  /** The two postings of a transfer cancel out. */
  lemma NegCancels(d: Decimal)
    ensures IsZero(Add(d, Neg(d)))
  {
  }
}

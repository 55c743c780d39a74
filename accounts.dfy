/** The caller's account registry (`accounts_by_id`), the posting rule both
    newer importers share, and the `identify` scan that picks the registered
    account a statement file belongs to. */
module Accounts {
  import opened Ledger

  /** A registered account: its ledger name, its currency, the institution
      holding it and, optionally, the pattern its statement files match. */
  datatype Account = Account(bean: string, currency: string, institution: string, fileMatchRe: Option<string>)

  /** One `(id, acct)` item of the registry. */
  datatype Entry = Entry(id: string, account: Account)

  /** A dict never holds a key twice. */
  predicate DistinctIds(es: seq<Entry>) {
    forall i, j :: 0 <= i < j < |es| ==> es[i].id != es[j].id
  }

  /** The registry, in its insertion order (the order `items()` yields). */
  type Registry = es: seq<Entry> | DistinctIds(es) witness []

  /** `accounts_by_id.get(id)` */
  function Lookup(es: seq<Entry>, id: string): (r: Option<Account>)
    ensures r.None? <==> forall i :: 0 <= i < |es| ==> es[i].id != id
    ensures r.Some? ==> exists i :: 0 <= i < |es| && es[i].id == id && es[i].account == r.value
  {
    if es == [] then None
    else if es[0].id == id then Some(es[0].account)
    else
      var r := Lookup(es[1..], id);
      assert forall i :: 0 < i < |es| ==> es[i] == es[1..][i - 1];
      r
  }

  /** Every registered id finds its own account. */
  lemma LookupRegistered(es: seq<Entry>, i: nat)
    requires DistinctIds(es) && i < |es|
    ensures Lookup(es, es[i].id) == Some(es[i].account)
  {
  }

  /** The ids whose account is held at `institution`. */
  function IdsOf(es: seq<Entry>, institution: string): (r: set<string>)
    ensures forall id :: id in r <==>
      exists i :: 0 <= i < |es| && es[i].id == id && es[i].account.institution == institution
  {
    if es == [] then {}
    else
      var rest := IdsOf(es[1..], institution);
      assert forall i :: 0 < i < |es| ==> es[i] == es[1..][i - 1];
      (if es[0].account.institution == institution then {es[0].id} else {}) + rest
  }

  /** The posting rule: the own account receives `units`; a registered
      counterparty receives their negation, in the own account's currency. */
  function Postings(own: Account, counterparty: Option<Account>, units: Decimal): (ps: seq<Posting>)
    ensures |ps| == if counterparty.Some? then 2 else 1
    ensures ps[0] == Posting(own.bean, Amount(units, own.currency))
    ensures |ps| == 2 ==> ps[1].account == counterparty.value.bean && IsZero(Add(ps[0].units.number, ps[1].units.number))
    ensures forall p :: p in ps ==> p.units.currency == own.currency
  {
    NegCancels(units);
    [Posting(own.bean, Amount(units, own.currency))] +
    if counterparty.Some? then [Posting(counterparty.value.bean, Amount(Neg(units), own.currency))] else []
  }

  /** `FLAG_TRANSFER if counterparty_acct else FLAG_OKAY` */
  function FlagFor(counterparty: Option<Account>): Flag {
    if counterparty.Some? then Transfer else Okay
  }

  /** The named groups of a regular-expression match (`groupdict()`): a group
      that did not take part in the match maps to None. */
  datatype Match = Match(groups: map<string, Option<string>>)

  /** The regular-expression engine: `re.match(pattern, name)`. */
  type Matcher = (string, string) -> Option<Match>

  /** Entry e's pattern matches `fileName` with an `id` group equal to e's id,
      and e's account is held at `institution`. */
  predicate Selects(e: Entry, institution: string, fileName: string, matcher: Matcher, m: Match) {
    && e.account.fileMatchRe.Some?
    && matcher(e.account.fileMatchRe.value, fileName) == Some(m)
    && "id" in m.groups
    && m.groups["id"] == Some(e.id)
    && e.account.institution == institution
  }

  /** Entry e's pattern matches `fileName` but has no `id` group at all. */
  predicate Raises(e: Entry, fileName: string, matcher: Matcher) {
    && e.account.fileMatchRe.Some?
    && var m := matcher(e.account.fileMatchRe.value, fileName);
    && m.Some?
    && "id" !in m.value.groups
  }

  /** One step of the scan: a selected match, a KeyError, or move on. */
  function Probe(e: Entry, institution: string, fileName: string, matcher: Matcher): (r: Result<Option<Match>>)
    ensures r.Err? <==> Raises(e, fileName, matcher)
    ensures forall m :: r == Ok(Some(m)) <==> Selects(e, institution, fileName, matcher, m)
  {
    if e.account.fileMatchRe.None? then Ok(None)
    else match matcher(e.account.fileMatchRe.value, fileName)
      case None => Ok(None)
      case Some(m) =>
        if "id" !in m.groups then Err(MissingIdGroup(e.account.fileMatchRe.value))
        else if m.groups["id"] == Some(e.id) && e.account.institution == institution then Ok(Some(m))
        else Ok(None)
  }

  /** What `identify` returns when scanning the registry in order. */
  function IdentifyIn(es: seq<Entry>, institution: string, fileName: string, matcher: Matcher): Result<Option<Match>>
    decreases |es|
  {
    if es == [] then Ok(None)
    else
      var r := Probe(es[0], institution, fileName, matcher);
      if r.Err? || r.value.Some? then r else IdentifyIn(es[1..], institution, fileName, matcher)
  }

  /** `identify`: the loop over `accounts_by_id.items()` with its early return. */
  method Identify(es: seq<Entry>, institution: string, fileName: string, matcher: Matcher)
    returns (r: Result<Option<Match>>)
    ensures r == IdentifyIn(es, institution, fileName, matcher)
  {
    var i := 0;
    while i < |es|
      invariant 0 <= i <= |es|
      invariant IdentifyIn(es, institution, fileName, matcher) == IdentifyIn(es[i..], institution, fileName, matcher)
    {
      assert es[i..][1..] == es[i + 1..];
      var entry := es[i];
      var pattern := entry.account.fileMatchRe;
      if pattern.Some? {
        var m := matcher(pattern.value, fileName);
        if m.Some? {
          if "id" !in m.value.groups {
            return Err(MissingIdGroup(pattern.value));
          }
          if m.value.groups["id"] == Some(entry.id) && entry.account.institution == institution {
            return Ok(m);
          }
        }
      }
      i := i + 1;
    }
    return Ok(None);
  }

  /** The scan returns the match of the FIRST entry that selects the file,
      provided every entry before it neither selects nor raises; it returns
      None exactly when no entry selects or raises; a KeyError comes from the
      first entry whose matching pattern lacks an `id` group. */
  lemma {:induction false} IdentifyFirst(es: seq<Entry>, institution: string, fileName: string, matcher: Matcher, m: Match)
    ensures IdentifyIn(es, institution, fileName, matcher) == Ok(Some(m)) <==>
      exists i :: 0 <= i < |es| && Selects(es[i], institution, fileName, matcher, m) &&
                  forall j :: 0 <= j < i ==> Probe(es[j], institution, fileName, matcher) == Ok(None)
    ensures IdentifyIn(es, institution, fileName, matcher) == Ok(None) <==>
      forall i :: 0 <= i < |es| ==> Probe(es[i], institution, fileName, matcher) == Ok(None)
    ensures IdentifyIn(es, institution, fileName, matcher).Err? ==>
      exists i :: 0 <= i < |es| && Raises(es[i], fileName, matcher) &&
                  forall j :: 0 <= j < i ==> Probe(es[j], institution, fileName, matcher) == Ok(None)
  {
    if es != [] {
      IdentifyFirst(es[1..], institution, fileName, matcher, m);
      assert forall i :: 0 < i < |es| ==> es[i] == es[1..][i - 1];
      var r := Probe(es[0], institution, fileName, matcher);
      if r.Ok? && r.value.None? {
        if IdentifyIn(es, institution, fileName, matcher) == Ok(Some(m)) {
          var k :| 0 <= k < |es[1..]| && Selects(es[1..][k], institution, fileName, matcher, m) &&
                   forall j :: 0 <= j < k ==> Probe(es[1..][j], institution, fileName, matcher) == Ok(None);
          assert Selects(es[k + 1], institution, fileName, matcher, m);
        }
        if IdentifyIn(es, institution, fileName, matcher).Err? {
          var k :| 0 <= k < |es[1..]| && Raises(es[1..][k], fileName, matcher) &&
                   forall j :: 0 <= j < k ==> Probe(es[1..][j], institution, fileName, matcher) == Ok(None);
          assert Raises(es[k + 1], fileName, matcher);
        }
      } else {
        assert Probe(es[0], institution, fileName, matcher) != Ok(None);
      }
    }
  }

  /** `extract` of the newer importers: the file must be identified as a
      statement of `institution` (the `assert` on identify's answer), then
      every row is converted by `convert`, in order. */
  method ExtractStatement(es: seq<Entry>, institution: string, fileName: string, rows: seq<Row>,
                          matcher: Matcher, convert: (Row, Meta) -> Result<Transaction>)
    returns (r: Result<seq<Transaction>>)
    ensures IdentifyIn(es, institution, fileName, matcher).Err? ==>
      r == Err(IdentifyIn(es, institution, fileName, matcher).error)
    ensures IdentifyIn(es, institution, fileName, matcher) == Ok(None) ==> r == Err(NotIdentified)
    ensures IdentifyIn(es, institution, fileName, matcher).Ok? &&
            IdentifyIn(es, institution, fileName, matcher).value.Some? ==>
      r == ExtractAll(fileName, rows, convert)
  {
    var m :- Identify(es, institution, fileName, matcher);
    if m.None? {
      return Err(NotIdentified);
    }
    r := ExtractAll(fileName, rows, convert);
  }
}

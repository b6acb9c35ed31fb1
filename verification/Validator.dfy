/**
 * The request validator: required fields, entry checks, double-entry balance over decimals, metadata
 * limits. A request it accepts is, in units, exactly a balanced list of entries.
 */
module Validator {
  import opened Base
  import opened Decimals
  import opened Sums
  import L = Ledger

  const DEBIT := "debit"
  const CREDIT := "credit"
  const STATES := {"pending", "settled", "cancelled"}
  const MAX_METADATA_KEY := 100
  const MAX_METADATA_VALUE := 1000

  datatype EntryRequest = EntryRequest(accountID: string, currencyCode: string, amount: Decimal, entryType: string)

  /** Metadata values are given as the text they print to, the form whose length is limited. */
  datatype Transaction = Transaction(state: string, entries: seq<EntryRequest>, metadata: map<string, string>)

  datatype EntryFault =
    | AccountRequired | CurrencyRequired | CurrencyFormat | CurrencyUnsupported
    | EntryTypeInvalid | AmountNegative | TooManyPlaces

  datatype ValidationError =
    | NoEntries
    | InvalidState
    | InvalidEntry(index: nat, fault: EntryFault)
    | Unbalanced
    | MetadataTooLong(key: string)

  predicate IsCurrencyCode(c: string) {
    |c| == 3 && forall i | 0 <= i < |c| :: 'A' <= c[i] <= 'Z'
  }

  ghost predicate EntryValid(supported: set<string>, e: EntryRequest) {
    && e.accountID != ""
    && IsCurrencyCode(e.currencyCode) && e.currencyCode in supported
    && (e.entryType == DEBIT || e.entryType == CREDIT)
    && !IsNegative(e.amount)
    && Fits(e.amount)
  }

  /** The running total of one side, as the loop accumulates it. */
  function Total(es: seq<EntryRequest>, side: string): Decimal {
    if es == [] then ZERO
    else
      var front := Total(es[..|es| - 1], side);
      if es[|es| - 1].entryType == side then Add(front, es[|es| - 1].amount) else front
  }

  /** Lengths are counted in bytes of UTF-8. */
  function Bytes(s: string): nat {
    if s == [] then 0
    else
      var c := s[|s| - 1] as int;
      Bytes(s[..|s| - 1]) + if c < 0x80 then 1 else if c < 0x800 then 2 else if c < 0x10000 then 3 else 4
  }

  /** Characters take one to four bytes, those up to U+007F one. */
  lemma {:induction false} BytesPerCharacter(s: string)
    ensures |s| <= Bytes(s) <= 4 * |s|
    ensures Bytes(s) == |s| <==> forall i | 0 <= i < |s| :: s[i] as int < 0x80
  {
    if s == [] {
    } else {
      BytesPerCharacter(s[..|s| - 1]);
    }
  }

  ghost predicate MetadataFits(m: map<string, string>) {
    forall k | k in m :: Bytes(k) <= MAX_METADATA_KEY && Bytes(m[k]) <= MAX_METADATA_VALUE
  }

  ghost predicate Acceptable(supported: set<string>, t: Transaction) {
    && t.entries != []
    && t.state in STATES
    && (forall i | 0 <= i < |t.entries| :: EntryValid(supported, t.entries[i]))
    && Equal(Total(t.entries, DEBIT), Total(t.entries, CREDIT))
    && MetadataFits(t.metadata)
  }

  class TransactionValidator {
    var supportedCurrencies: map<string, bool>

    ghost function Supported(): set<string>
      reads this
    {
      set c | c in supportedCurrencies && supportedCurrencies[c]
    }

    constructor (currencies: seq<string>)
      ensures Supported() == set c | c in currencies
    {
      var currencyMap := map[];
      for i := 0 to |currencies|
        invariant forall c :: c in currencyMap <==> c in currencies[..i]
        invariant forall c | c in currencyMap :: currencyMap[c]
      {
        currencyMap := currencyMap[currencies[i] := true];
      }
      supportedCurrencies := currencyMap;
    }

    /** The error names the first entry that fails. */
    method ValidateTransaction(t: Transaction) returns (r: Option<ValidationError>)
      ensures r.None? <==> Acceptable(Supported(), t)
      ensures r.Some? && r.value.InvalidEntry? ==>
        && r.value.index < |t.entries|
        && !EntryValid(Supported(), t.entries[r.value.index])
        && forall i | 0 <= i < r.value.index :: EntryValid(Supported(), t.entries[i])
      ensures r == Some(NoEntries) <==> t.entries == []
      ensures r == Some(InvalidState) <==>
        t.entries != [] && t.state != "pending" && t.state != "settled" && t.state != "cancelled"
      ensures r == Some(Unbalanced) ==> !Equal(Total(t.entries, DEBIT), Total(t.entries, CREDIT))
      ensures r.Some? && r.value.MetadataTooLong? ==> r.value.key in t.metadata && !MetadataFits(t.metadata)
    {
      if t.entries == [] {
        return Some(NoEntries);
      }
      if t.state !in STATES {
        return Some(InvalidState);
      }
      for i := 0 to |t.entries|
        invariant forall j | 0 <= j < i :: EntryValid(Supported(), t.entries[j])
      {
        var fault := ValidateEntry(t.entries[i]);
        if fault.Some? {
          return Some(InvalidEntry(i, fault.value));
        }
      }
      var balanced := ValidateDoubleEntryBalance(t.entries);
      if !balanced {
        return Some(Unbalanced);
      }
      r := ValidateMetadata(t.metadata);
    }

    method ValidateEntry(e: EntryRequest) returns (fault: Option<EntryFault>)
      ensures fault.None? <==> EntryValid(Supported(), e)
      ensures fault.None? <==>
        && e.accountID != ""
        && |e.currencyCode| == 3 && (forall i | 0 <= i < 3 :: 'A' <= e.currencyCode[i] <= 'Z') && e.currencyCode in Supported()
        && (e.entryType == "debit" || e.entryType == "credit")
        && e.amount.coefficient >= 0 && e.amount.exponent >= -8
    {
      if e.accountID == "" { return Some(AccountRequired); }
      if e.currencyCode == "" { return Some(CurrencyRequired); }
      if !IsCurrencyCode(e.currencyCode) { return Some(CurrencyFormat); }
      if e.currencyCode !in supportedCurrencies || !supportedCurrencies[e.currencyCode] { return Some(CurrencyUnsupported); }
      if e.entryType != DEBIT && e.entryType != CREDIT { return Some(EntryTypeInvalid); }
      if IsNegative(e.amount) { return Some(AmountNegative); }
      if e.amount.exponent < 0 && -e.amount.exponent > PLACES { return Some(TooManyPlaces); }
      return None;
    }

    method ValidateDoubleEntryBalance(es: seq<EntryRequest>) returns (balanced: bool)
      ensures balanced <==> Equal(Total(es, DEBIT), Total(es, CREDIT))
    {
      var totalDebits, totalCredits := ZERO, ZERO;
      for i := 0 to |es|
        invariant totalDebits == Total(es[..i], DEBIT)
        invariant totalCredits == Total(es[..i], CREDIT)
      {
        assert es[..i + 1][..i] == es[..i];
        if es[i].entryType == DEBIT {
          totalDebits := Add(totalDebits, es[i].amount);
        } else if es[i].entryType == CREDIT {
          totalCredits := Add(totalCredits, es[i].amount);
        }
      }
      assert es[..|es|] == es;
      balanced := Equal(totalDebits, totalCredits);
    }

    /** Map iteration order is arbitrary, so which oversized key is reported is too. */
    method ValidateMetadata(m: map<string, string>) returns (r: Option<ValidationError>)
      ensures r.None? <==> MetadataFits(m)
      ensures r.None? <==> forall k | k in m :: Bytes(k) <= 100 && Bytes(m[k]) <= 1000
      ensures r.Some? ==> r.value.MetadataTooLong? && r.value.key in m
    {
      var rest := m.Keys;
      while rest != {}
        invariant rest <= m.Keys
        invariant forall k | k in m && k !in rest :: Bytes(k) <= MAX_METADATA_KEY && Bytes(m[k]) <= MAX_METADATA_VALUE
        decreases |rest|
      {
        var k :| k in rest;
        if Bytes(k) > MAX_METADATA_KEY || Bytes(m[k]) > MAX_METADATA_VALUE {
          return Some(MetadataTooLong(k));
        }
        rest := rest - {k};
      }
      return None;
    }
  }

  // ----- the same request in units

  predicate Convertible(e: EntryRequest) { Fits(e.amount) && Units(e.amount) >= 0 }

  function ToEntry(e: EntryRequest): L.Entry
    requires Convertible(e)
  {
    L.Entry(e.accountID, e.currencyCode, Units(e.amount), if e.entryType == CREDIT then L.Credit else L.Debit)
  }

  function ToEntries(es: seq<EntryRequest>): (r: seq<L.Entry>)
    requires forall e | e in es :: Convertible(e)
    ensures |r| == |es| && forall i | 0 <= i < |es| :: r[i] == ToEntry(es[i])
  {
    if es == [] then [] else ToEntries(es[..|es| - 1]) + [ToEntry(es[|es| - 1])]
  }

  lemma ValidIsConvertible(supported: set<string>, e: EntryRequest)
    requires EntryValid(supported, e)
    ensures Convertible(e)
  {
    SignIsExact(e.amount);
  }

  predicate Typed(es: seq<EntryRequest>) {
    forall e | e in es :: Convertible(e) && (e.entryType == DEBIT || e.entryType == CREDIT)
  }

  /** The decimal totals, in units, differ by the signed sum of the entries. */
  lemma {:induction false} TotalsInUnits(es: seq<EntryRequest>)
    requires Typed(es)
    ensures Fits(Total(es, DEBIT)) && Fits(Total(es, CREDIT))
    ensures Units(Total(es, CREDIT)) - Units(Total(es, DEBIT)) == Sum(ToEntries(es), L.AnySigned())
  {
    if es == [] {
    } else {
      var front, e := es[..|es| - 1], es[|es| - 1];
      TotalsInUnits(front);
      AddIsExact(Total(front, e.entryType), e.amount);
      SumPush(ToEntries(front), ToEntry(e), L.AnySigned());
    }
  }

  /** The validator's balance verdict over decimals is equality of the integer sums. */
  lemma BalanceVerdictIsExact(supported: set<string>, es: seq<EntryRequest>)
    requires forall i | 0 <= i < |es| :: EntryValid(supported, es[i])
    ensures Typed(es)
    ensures Equal(Total(es, DEBIT), Total(es, CREDIT)) <==> L.Balanced(ToEntries(es))
  {
    forall e | e in es ensures Convertible(e) && (e.entryType == DEBIT || e.entryType == CREDIT) {
      var i :| 0 <= i < |es| && es[i] == e;
      ValidIsConvertible(supported, e);
    }
    TotalsInUnits(es);
    EqualIsExact(Total(es, DEBIT), Total(es, CREDIT));
  }

  /** What request entries ask of one account and currency: credits less debits, in units. */
  function Asked(es: seq<EntryRequest>, account: string, currency: string): int
    requires Typed(es)
  {
    if es == [] then 0
    else
      var e := es[|es| - 1];
      Asked(es[..|es| - 1], account, currency)
      + if e.accountID != account || e.currencyCode != currency then 0
        else if e.entryType == "credit" then Units(e.amount) else -Units(e.amount)
  }

  /** The stored entries do to every key what the request asks. */
  lemma {:induction false} ImpactIsAsked(es: seq<EntryRequest>, k: L.Key)
    requires Typed(es)
    ensures L.Impact(ToEntries(es), k) == Asked(es, k.account, k.currency)
  {
    if es == [] {
    } else {
      var front, e := es[..|es| - 1], es[|es| - 1];
      ImpactIsAsked(front, k);
      SumPush(ToEntries(front), ToEntry(e), L.SignedOn(k));
    }
  }

  /** The smallest request: one amount debited here and credited there. */
  function Move(a: string, b: string, currency: string, amount: Decimal): seq<EntryRequest> {
    [EntryRequest(a, currency, amount, "debit"), EntryRequest(b, currency, amount, "credit")]
  }

  lemma MoveIsValid(supported: set<string>, a: string, b: string, currency: string, amount: Decimal)
    requires a != "" && b != "" && IsCurrencyCode(currency) && currency in supported
    requires amount.coefficient >= 0 && amount.exponent >= -8
    ensures forall i | 0 <= i < 2 :: EntryValid(supported, Move(a, b, currency, amount)[i])
  {
  }

  lemma PairBalances(x: L.Entry, y: L.Entry)
    ensures L.Balanced([x, y]) <==> x.Signed() + y.Signed() == 0
  {
    assert [x, y] == [] + [x] + [y];
    SumPush([] + [x], y, L.AnySigned());
    SumPush([], x, L.AnySigned());
  }

  lemma AskedPush(es: seq<EntryRequest>, e: EntryRequest, account: string, currency: string)
    requires Typed(es + [e]) && Typed(es)
    ensures Asked(es + [e], account, currency) == Asked(es, account, currency)
      + if e.accountID != account || e.currencyCode != currency then 0
        else if e.entryType == "credit" then Units(e.amount) else -Units(e.amount)
  {
    assert (es + [e])[..|es|] == es;
  }

  /** It lowers the account debited and raises the one credited, by the amount. */
  lemma MoveAsks(a: string, b: string, currency: string, amount: Decimal)
    requires a != b && Fits(amount) && amount.coefficient >= 0
    ensures var es := Move(a, b, currency, amount);
      && Typed(es)
      && Asked(es, a, currency) == -Units(amount)
      && Asked(es, b, currency) == Units(amount)
  {
    var es := Move(a, b, currency, amount);
    SignIsExact(amount);
    assert Typed(es) && Typed([es[0]]) && Typed([]);
    assert es == [es[0]] + [es[1]] && [es[0]] == [] + [es[0]];
    AskedPush([], es[0], a, currency);
    AskedPush([es[0]], es[1], a, currency);
    AskedPush([], es[0], b, currency);
    AskedPush([es[0]], es[1], b, currency);
  }

  /** It validates, as settled and as pending. */
  lemma MoveIsAcceptable(supported: set<string>, a: string, b: string, currency: string, amount: Decimal, state: string)
    requires a != "" && b != "" && IsCurrencyCode(currency) && currency in supported
    requires amount.coefficient >= 0 && amount.exponent >= -8
    requires state == "settled" || state == "pending"
    ensures Acceptable(supported, Transaction(state, Move(a, b, currency, amount), map[]))
  {
    var es := Move(a, b, currency, amount);
    MoveIsValid(supported, a, b, currency, amount);
    BalanceVerdictIsExact(supported, es);
    PairBalances(ToEntry(es[0]), ToEntry(es[1]));
    assert ToEntries(es) == [ToEntry(es[0]), ToEntry(es[1])];
  }

  // ----- rows read back for a reversal

  function SideName(k: L.EntryKind): string { if k.Debit? then DEBIT else CREDIT }

  function FromEntry(e: L.Entry): EntryRequest {
    EntryRequest(e.account, e.currency, FromUnits(e.amount), SideName(e.kind))
  }

  function FromEntries(es: seq<L.Entry>): (r: seq<EntryRequest>)
    ensures |r| == |es| && forall i | 0 <= i < |es| :: r[i] == FromEntry(es[i])
  {
    seq(|es|, i requires 0 <= i < |es| => FromEntry(es[i]))
  }

  /** Entries read back from the table are those stored, in whatever order they come. */
  lemma ReadBackIsExact(es: seq<L.Entry>)
    ensures Typed(FromEntries(es)) && ToEntries(FromEntries(es)) == es
  {
    forall e | e in es ensures Convertible(FromEntry(e)) && ToEntry(FromEntry(e)) == e {
      RoundTrip(e.amount, ZERO);
    }
  }

  lemma FlippedIsValid(supported: set<string>, es: seq<EntryRequest>, e: L.Entry)
    requires Typed(es) && e in ToEntries(es)
    requires forall i | 0 <= i < |es| :: EntryValid(supported, es[i])
    ensures EntryValid(supported, FromEntry(L.Flip(e)))
  {
    var i :| 0 <= i < |es| && ToEntries(es)[i] == e;
    assert EntryValid(supported, es[i]);
  }

  /** The entries of an accepted request, stored and fetched for a reversal in any order, are acceptable again. */
  lemma ReversalIsAcceptable(supported: set<string>, t: Transaction, fetched: seq<L.Entry>,
      state: string, metadata: map<string, string>)
    requires Acceptable(supported, t) && state in STATES && MetadataFits(metadata)
    requires Typed(t.entries) && L.SameEntries(ToEntries(t.entries), fetched)
    ensures Acceptable(supported, Transaction(state, FromEntries(L.Flipped(fetched)), metadata))
  {
    BalanceVerdictIsExact(supported, t.entries);
    var back := FromEntries(L.Flipped(fetched));
    L.OrderDoesNotMatter(ToEntries(t.entries), fetched);
    L.FlippedNegates(fetched);
    forall i | 0 <= i < |back| ensures EntryValid(supported, back[i]) {
      assert fetched[i] in ToEntries(t.entries);
      FlippedIsValid(supported, t.entries, fetched[i]);
    }
    ReadBackIsExact(L.Flipped(fetched));
    BalanceVerdictIsExact(supported, back);
  }
}

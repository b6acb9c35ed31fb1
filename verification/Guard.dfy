/**
 * The account and balance check of a posting request: net impact per account and currency, locks,
 * and the verdict on every touched key. Maps are iterated in arbitrary order.
 */
module Guard {
  import opened Base
  import opened Sums
  import opened Ledger
  import opened Balances
  import opened Machine
  import opened Conservation
  import Locks
  import Validator
  import Retry
  import Idempotency

  datatype ServiceError =
    | LockTargetMissing(account: string)
    | LockFailed(account: string)
    | AccountNotFound(account: string)
    | CurrencyUnsupported(key: Key)
    | InsufficientBalance(key: Key, required: int, available: int)
    | Invalid(reason: Validator.ValidationError)
    | TransactionNotFound(id: nat)
    | NotPending(state: TxnState)
    | AlreadyReversed(reversal: nat)
    | IsReversal(original: nat)
    | NotSettled(state: TxnState)
    | KeyExists(id: nat)
    | BatchEmpty
    | BatchTooLarge(size: nat)
    | KeyStore(fault: Idempotency.RepositoryError)
    | Database(failure: Retry.Failure)
    | ContextDone
    | RetriesExhausted(failure: Retry.Failure)

  ghost function Touched(es: seq<Entry>): set<Key> { set e | e in es :: e.On() }

  /** What the loop has gathered: the touched keys with their impacts, and the accounts. */
  ghost predicate Tallied(es: seq<Entry>, impacts: map<Key, int>, accountIDs: set<string>) {
    && impacts.Keys == Touched(es)
    && (forall k | k in impacts :: impacts[k] == Impact(es, k))
    && accountIDs == set e | e in es :: e.account
  }

  lemma OneMoreEntry(es: seq<Entry>, e: Entry, impacts: map<Key, int>, accountIDs: set<string>)
    requires Tallied(es, impacts, accountIDs)
    ensures var before := if e.On() in impacts then impacts[e.On()] else 0;
      Tallied(es + [e], impacts[e.On() := before + e.Signed()], accountIDs + {e.account})
  {
    forall k: Key ensures Impact(es + [e], k) == Impact(es, k) + if e.On() == k then e.Signed() else 0 {
      SumPush(es, e, SignedOn(k));
    }
    if e.On() !in Touched(es) {
      UntouchedKey(es, e.On());
    }
    assert forall x :: x in es + [e] <==> x in es || x == e;
  }

  method NetImpacts(es: seq<Entry>) returns (impacts: map<Key, int>, accountIDs: set<string>)
    ensures impacts.Keys == Touched(es)
    ensures forall k | k in impacts :: impacts[k] == Impact(es, k)
    ensures accountIDs == set e | e in es :: e.account
  {
    impacts, accountIDs := map[], {};
    for i := 0 to |es|
      invariant Tallied(es[..i], impacts, accountIDs)
    {
      var e := es[i];
      var key := e.On();
      var impact := if key in impacts then impacts[key] else 0;
      OneMoreEntry(es[..i], e, impacts, accountIDs);
      assert es[..i + 1] == es[..i] + [e];
      impact := if e.kind.Credit? then impact + e.amount else impact - e.amount;
      accountIDs, impacts := accountIDs + {e.account}, impacts[key := impact];
    }
    assert es[..|es|] == es;
  }

  /** Over all touched keys the impacts of a balanced request cancel out. */
  lemma ImpactsSumToZero(es: seq<Entry>)
    ensures SumSet(Touched(es), ImpactOf(es)) == 0 <==> Balanced(es)
  {
    ImpactsAddUp(es, Touched(es));
    SumSame(es, es, SignedWithin(Touched(es)), AnySigned());
  }

  /** The reported error is one the request really has. */
  ghost predicate Explains(l: Ledger, es: seq<Entry>, error: ServiceError) {
    match error
    case LockTargetMissing(a) => a !in l.accounts && exists e | e in es :: e.account == a
    case AccountNotFound(a) => a !in l.accounts && exists e | e in es :: e.account == a
    case CurrencyUnsupported(k) =>
      k in Touched(es) && k.account in l.accounts && k.currency !in l.accounts[k.account]
    case InsufficientBalance(k, required, available) =>
      && k in Touched(es)
      && k.account in l.accounts && k.currency in l.accounts[k.account] && !l.accounts[k.account][k.currency]
      && required == -Impact(es, k) > 0
      && available == CurrentBalance(l, k).available
      && available < required
    case _ => false
  }

  lemma RejectUnknown(l: Ledger, es: seq<Entry>, account: string)
    requires account !in l.accounts && exists e | e in es :: e.account == account
    ensures !Accepts(l, es)
  {
    var e :| e in es && e.account == account;
    assert !KeyAccepted(l, es, e.On());
  }

  lemma ExplainedIsRejected(l: Ledger, es: seq<Entry>, error: ServiceError)
    requires Explains(l, es, error)
    ensures !Accepts(l, es)
  {
    match error
    case LockTargetMissing(a) => RejectUnknown(l, es, a);
    case AccountNotFound(a) => RejectUnknown(l, es, a);
    case CurrencyUnsupported(k) =>
      var e :| e in es && e.On() == k;
      assert !KeyAccepted(l, es, e.On());
    case InsufficientBalance(k, _, _) =>
      var e :| e in es && e.On() == k;
      assert !KeyAccepted(l, es, e.On());
  }

  /** Copy the id set to a slice, in whatever order, and lock the rows. */
  method LockAccounts(l: Ledger, es: seq<Entry>, accountIDs: set<string>, failing: set<string>) returns (r: Option<ServiceError>)
    requires accountIDs == set e | e in es :: e.account
    ensures r.None? <==> forall a | a in accountIDs :: a in l.accounts && a !in failing
    ensures r.Some? ==>
      && (r.value.LockTargetMissing? || r.value.LockFailed?)
      && r.value.account in accountIDs
      && if r.value.LockFailed? then r.value.account in failing else r.value.account !in l.accounts
  {
    var slice: seq<string> := [];
    var rest := accountIDs;
    while rest != {}
      invariant rest <= accountIDs
      invariant forall a :: a in slice <==> a in accountIDs && a !in rest
      decreases |rest|
    {
      var a :| a in rest;
      slice := slice + [a];
      rest := rest - {a};
    }
    var taken, failure := Locks.LockMultipleAccountsForUpdate(l.accounts.Keys, failing, slice);
    Locks.PlanIsOrdered(slice);
    if failure.Some? {
      assert failure.value.account in Locks.Plan(slice);
      return Some(if failure.value.QueryFailed? then LockFailed(failure.value.account) else LockTargetMissing(failure.value.account));
    }
    return None;
  }

  /** The checks on the touched currencies of one account. */
  method ValidateAccount(l: Ledger, es: seq<Entry>, impacts: map<Key, int>, accountID: string) returns (r: Option<ServiceError>)
    requires impacts.Keys == Touched(es) && forall k | k in impacts :: impacts[k] == Impact(es, k)
    requires accountID in l.accounts
    ensures r.None? ==> forall e | e in es && e.account == accountID :: KeyAccepted(l, es, e.On())
    ensures r.Some? ==> !Accepts(l, es) && Explains(l, es, r.value) && !r.value.AccountNotFound?
  {
    var currencyPolicies := l.accounts[accountID];
    var rest := impacts.Keys;
    while rest != {}
      invariant rest <= impacts.Keys
      invariant forall k | k in impacts && k !in rest && k.account == accountID :: KeyAccepted(l, es, k)
      decreases |rest|
    {
      var key :| key in rest;
      rest := rest - {key};
      if key.account == accountID {
        ghost var e :| e in es && e.On() == key;
        if key.currency !in currencyPolicies {
          assert !KeyAccepted(l, es, key);
          return Some(CurrencyUnsupported(key));
        }
        if !currencyPolicies[key.currency] && impacts[key] < 0 {
          var balance := CurrentBalance(l, key);
          if balance.available + impacts[key] < 0 {
            assert !KeyAccepted(l, es, key);
            return Some(InsufficientBalance(key, -impacts[key], balance.available));
          }
        }
      }
    }
    forall e | e in es && e.account == accountID ensures KeyAccepted(l, es, e.On()) {
      assert e.On() in impacts;
    }
    return None;
  }

  /** failing names the accounts whose lock query the database fails. */
  method ValidateAccountsForPost(l: Ledger, es: seq<Entry>, withLocks: bool, failing: set<string>) returns (r: Option<ServiceError>)
    ensures r.None? <==> Accepts(l, es) && (withLocks ==> forall e | e in es :: e.account !in failing)
    ensures r.Some? ==> Explains(l, es, r.value) || (withLocks && r.value.LockFailed? && r.value.account in failing)
    ensures withLocks ==> !(r.Some? && r.value.AccountNotFound?)
  {
    var balanceImpacts, accountIDs := NetImpacts(es);
    if withLocks {
      r := LockAccounts(l, es, accountIDs, failing);
      if r.Some? {
        assert exists e | e in es :: e.account == r.value.account;
        if r.value.LockTargetMissing? {
          RejectUnknown(l, es, r.value.account);
        }
        return;
      }
    }
    var rest := accountIDs;
    while rest != {}
      invariant rest <= accountIDs
      invariant withLocks ==> forall a | a in accountIDs :: a in l.accounts && a !in failing
      invariant forall e | e in es && e.account !in rest :: KeyAccepted(l, es, e.On())
      decreases |rest|
    {
      var accountID :| accountID in rest;
      if accountID !in l.accounts {
        RejectUnknown(l, es, accountID);
        return Some(AccountNotFound(accountID));
      }
      r := ValidateAccount(l, es, balanceImpacts, accountID);
      if r.Some? {
        return;
      }
      rest := rest - {accountID};
    }
    return None;
  }
}

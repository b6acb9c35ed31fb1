/**
 * The ledger's rows and the row operations of the repository: transactions with their entries in
 * insertion order, accounts with a per-currency negative-balance policy, balance snapshots.
 * Amounts are integers in units of 10^-8 (see Decimals for why this loses nothing).
 */
module Ledger {
  import opened Base
  import opened Sums

  datatype TxnState = Pending | Settled | Cancelled
  datatype EntryKind = Debit | Credit

  datatype Key = Key(account: string, currency: string)

  datatype Entry = Entry(account: string, currency: string, amount: nat, kind: EntryKind) {
    function On(): Key { Key(account, currency) }

    function Signed(): int { if kind.Credit? then amount as int else -(amount as int) }
  }

  datatype Txn = Txn(
    id: nat,
    key: Option<string>,
    state: TxnState,
    postedAt: int,
    settledAt: Option<int>,
    reversedBy: Option<nat>,
    reverses: Option<nat>,
    entries: seq<Entry>)

  datatype Snapshot = Snapshot(key: Key, settled: int, count: int, at: int)

  /** clock is a lower bound for the posted_at of every transaction still to come. */
  datatype Ledger = Ledger(
    accounts: map<string, map<string, bool>>,
    txns: seq<Txn>,
    snapshots: seq<Snapshot>,
    clock: int)

  /** A posting request that has passed validation, its amounts converted to units. */
  datatype Request = Request(key: Option<string>, state: TxnState, entries: seq<Entry>)

  const EMPTY := Ledger(map[], [], [], 0)

  // ----- contributions of one entry or one transaction to the sums

  function SignedOn(k: Key): Entry -> int { (e: Entry) => if e.On() == k then e.Signed() else 0 }

  function CreditOn(k: Key): Entry -> int { (e: Entry) => if e.On() == k && e.kind.Credit? then e.amount else 0 }

  function DebitOn(k: Key): Entry -> int { (e: Entry) => if e.On() == k && e.kind.Debit? then e.amount else 0 }

  function OneOn(k: Key): Entry -> int { (e: Entry) => if e.On() == k then 1 else 0 }

  function AnySigned(): Entry -> int { (e: Entry) => e.Signed() }

  function SignedIn(currency: string): Entry -> int { (e: Entry) => if e.currency == currency then e.Signed() else 0 }

  /** The net effect of a list of entries on one account and currency. */
  function Impact(es: seq<Entry>, k: Key): int { Sum(es, SignedOn(k)) }

  /** Debits equal credits, all currencies taken together. */
  predicate Balanced(es: seq<Entry>) { Sum(es, AnySigned()) == 0 }

  predicate BalancedIn(es: seq<Entry>, currency: string) { Sum(es, SignedIn(currency)) == 0 }

  // ----- rows

  function Position(txns: seq<Txn>, id: nat): (i: int)
    ensures -1 <= i < |txns|
    ensures i >= 0 ==> txns[i].id == id
    ensures i == -1 ==> forall j | 0 <= j < |txns| :: txns[j].id != id
  {
    if txns == [] then -1
    else if txns[|txns| - 1].id == id then |txns| - 1
    else Position(txns[..|txns| - 1], id)
  }

  predicate IdFree(txns: seq<Txn>, id: nat) {
    forall i | 0 <= i < |txns| :: txns[i].id != id
  }

  /** The UNIQUE column: NULLs never collide, every other value (the empty string too) does. */
  predicate KeyFree(txns: seq<Txn>, key: Option<string>) {
    key.Some? ==> forall i | 0 <= i < |txns| :: txns[i].key != key
  }

  /** What the two unique constraints of the transactions table allow. */
  predicate CanInsert(txns: seq<Txn>, id: nat, key: Option<string>) {
    IdFree(txns, id) && KeyFree(txns, key)
  }

  function MakeTxn(id: nat, r: Request, reverses: Option<nat>, at: int): Txn {
    Txn(id, r.key, r.state, at, if r.state.Settled? then Some(at) else None, None, reverses, r.entries)
  }

  function Insert(l: Ledger, t: Txn): Ledger { l.(txns := l.txns + [t]) }

  function Replace(l: Ledger, i: int, t: Txn): Ledger
    requires 0 <= i < |l.txns|
  {
    l.(txns := l.txns[i := t])
  }

  function Flip(e: Entry): Entry { e.(kind := if e.kind.Debit? then Credit else Debit) }

  function Flipped(es: seq<Entry>): (r: seq<Entry>)
    ensures |r| == |es|
    ensures forall i | 0 <= i < |es| :: r[i] == Flip(es[i])
  {
    seq(|es|, i requires 0 <= i < |es| => Flip(es[i]))
  }

  /**
   * The same entry rows in any order. All entries of a transaction carry one creation time, so reading
   * them back ordered by it fixes nothing.
   */
  predicate SameEntries(es: seq<Entry>, read: seq<Entry>) {
    multiset(es) == multiset(read)
  }

  /** What entries do to balances does not depend on the order they are read in. */
  lemma OrderDoesNotMatter(es: seq<Entry>, read: seq<Entry>)
    requires SameEntries(es, read)
    ensures forall k :: Impact(read, k) == Impact(es, k)
    ensures Balanced(read) <==> Balanced(es)
    ensures forall c :: Sum(read, SignedIn(c)) == Sum(es, SignedIn(c))
    ensures |read| == |es| && forall e :: e in read <==> e in es
  {
    forall f: Entry -> int ensures Sum(read, f) == Sum(es, f) {
      SumPermuted(es, read, f);
    }
    assert |multiset(read)| == |multiset(es)|;
    forall e ensures e in read <==> e in es {
      assert e in multiset(read) <==> e in multiset(es);
    }
  }

  lemma {:induction false} FlippedCount(es: seq<Entry>, e: Entry)
    ensures multiset(Flipped(es))[e] == multiset(es)[Flip(e)]
  {
    if es == [] {
    } else {
      var n := |es| - 1;
      FlippedCount(es[..n], e);
      assert es == es[..n] + [es[n]];
      assert Flipped(es) == Flipped(es[..n]) + [Flip(es[n])];
    }
  }

  lemma FlippedSame(es: seq<Entry>, read: seq<Entry>)
    requires SameEntries(es, read)
    ensures SameEntries(Flipped(es), Flipped(read))
  {
    forall e ensures multiset(Flipped(es))[e] == multiset(Flipped(read))[e] {
      FlippedCount(es, e);
      FlippedCount(read, e);
    }
  }

  /** A reversal's entries undo the original on every key and stay balanced. */
  lemma FlippedNegates(es: seq<Entry>)
    ensures forall k :: Impact(Flipped(es), k) == -Impact(es, k)
    ensures Balanced(Flipped(es)) <==> Balanced(es)
    ensures forall c :: Sum(Flipped(es), SignedIn(c)) == -Sum(es, SignedIn(c))
  {
    forall k ensures Impact(Flipped(es), k) == -Impact(es, k) {
      SumOfFlipped(es, SignedOn(k));
    }
    SumOfFlipped(es, AnySigned());
    forall c ensures Sum(Flipped(es), SignedIn(c)) == -Sum(es, SignedIn(c)) {
      SumOfFlipped(es, SignedIn(c));
    }
  }

  lemma SumOfFlipped(es: seq<Entry>, f: Entry -> int)
    requires forall e :: f(Flip(e)) == -f(e)
    ensures Sum(Flipped(es), f) == -Sum(es, f)
  {
    var zero := (e: Entry) => 0;
    var minus := (e: Entry) => -f(e);
    SumSame(Flipped(es), es, f, minus);
    SumPlus(es, f, minus, zero);
    SumZero(es, zero);
  }

  /** A key no entry mentions is not touched. */
  lemma UntouchedKey(es: seq<Entry>, k: Key)
    requires forall e | e in es :: e.On() != k
    ensures Impact(es, k) == 0
  {
    SumZero(es, SignedOn(k));
  }
}

/**
 * Balances as the calculator computes them: SQL aggregates over joined entries, added to the newest
 * snapshot when there is one. Nothing here is stored; a balance is a fold over the transactions.
 */
module Balances {
  import opened Base
  import opened Sums
  import opened Ledger

  datatype Totals = Totals(credits: int, debits: int, count: int)

  datatype Balance = Balance(
    settled: int,
    pendingDebits: int,
    pendingCredits: int,
    available: int,
    count: int)

  /** Per-transaction value g, kept only for transactions in the given state and time window. */
  function Pick(g: seq<Entry> -> int, state: TxnState, after: Option<int>, upTo: Option<int>): Txn -> int {
    (t: Txn) =>
      if t.state == state
         && (after.Some? ==> t.postedAt > after.value)
         && (upTo.Some? ==> t.postedAt <= upTo.value)
      then g(t.entries) else 0
  }

  function EntrySum(f: Entry -> int): seq<Entry> -> int { (es: seq<Entry>) => Sum(es, f) }

  /** The aggregate query: credits, debits and row count on one key, filtered by state and posted_at. */
  function Aggregate(txns: seq<Txn>, k: Key, state: TxnState, after: Option<int>, upTo: Option<int>): Totals {
    Totals(
      Sum(txns, Pick(EntrySum(CreditOn(k)), state, after, upTo)),
      Sum(txns, Pick(EntrySum(DebitOn(k)), state, after, upTo)),
      Sum(txns, Pick(EntrySum(OneOn(k)), state, after, upTo)))
  }

  /** The net value of the same rows, as one signed fold. */
  function Net(txns: seq<Txn>, k: Key, state: TxnState, after: Option<int>, upTo: Option<int>): int {
    Sum(txns, Pick(EntrySum(SignedOn(k)), state, after, upTo))
  }

  lemma CreditsMinusDebits(txns: seq<Txn>, k: Key, state: TxnState, after: Option<int>, upTo: Option<int>)
    ensures var a := Aggregate(txns, k, state, after, upTo); a.credits - a.debits == Net(txns, k, state, after, upTo)
  {
    var c := Pick(EntrySum(CreditOn(k)), state, after, upTo);
    var d := Pick(EntrySum(DebitOn(k)), state, after, upTo);
    var n := Pick(EntrySum(SignedOn(k)), state, after, upTo);
    forall i | 0 <= i < |txns| ensures c(txns[i]) == n(txns[i]) + d(txns[i]) {
      SumPlus(txns[i].entries, SignedOn(k), DebitOn(k), CreditOn(k));
    }
    SumPlus(txns, n, d, c);
  }

  // ----- the aggregate query, as the database runs it

  /** Entries on one key, in order. */
  function EntriesOn(es: seq<Entry>, k: Key): (r: seq<Entry>)
    ensures forall e | e in r :: e in es && e.account == k.account && e.currency == k.currency
  {
    if es == [] then []
    else
      var e := es[|es| - 1];
      EntriesOn(es[..|es| - 1], k) + if e.account == k.account && e.currency == k.currency then [e] else []
  }

  predicate InWindow(t: Txn, state: TxnState, after: Option<int>, upTo: Option<int>) {
    t.state == state && (after.None? || after.value < t.postedAt) && (upTo.None? || t.postedAt <= upTo.value)
  }

  /** The rows of the join: entries on the key whose transaction is in the state and the window. */
  function Joined(txns: seq<Txn>, k: Key, state: TxnState, after: Option<int>, upTo: Option<int>): seq<Entry> {
    if txns == [] then []
    else
      var t := txns[|txns| - 1];
      Joined(txns[..|txns| - 1], k, state, after, upTo)
      + if InWindow(t, state, after, upTo) then EntriesOn(t.entries, k) else []
  }

  /** SUM(amount) over the rows of one entry type. */
  function AmountOf(es: seq<Entry>, kind: EntryKind): int {
    if es == [] then 0
    else AmountOf(es[..|es| - 1], kind) + if es[|es| - 1].kind == kind then es[|es| - 1].amount else 0
  }

  lemma AmountPush(es: seq<Entry>, e: Entry, kind: EntryKind)
    ensures AmountOf(es + [e], kind) == AmountOf(es, kind) + if e.kind == kind then e.amount else 0
  {
    assert (es + [e])[..|es|] == es;
  }

  lemma {:induction false} AmountsAddUp(a: seq<Entry>, b: seq<Entry>, kind: EntryKind)
    ensures AmountOf(a + b, kind) == AmountOf(a, kind) + AmountOf(b, kind)
  {
    if b == [] {
      assert a + b == a;
    } else {
      var front, last := b[..|b| - 1], b[|b| - 1];
      AmountsAddUp(a, front, kind);
      AmountPush(a + front, last, kind);
      assert a + b == a + front + [last];
    }
  }

  lemma EntriesPush(es: seq<Entry>, e: Entry, k: Key)
    ensures EntriesOn(es + [e], k) == EntriesOn(es, k) + if e.account == k.account && e.currency == k.currency then [e] else []
  {
    assert (es + [e])[..|es|] == es;
  }

  lemma OneMoreSide(es: seq<Entry>, e: Entry, k: Key, kind: EntryKind)
    ensures AmountOf(EntriesOn(es + [e], k), kind)
         == AmountOf(EntriesOn(es, k), kind) + if e.On() == k && e.kind == kind then e.amount else 0
  {
    EntriesPush(es, e, k);
    if e.On() == k {
      AmountPush(EntriesOn(es, k), e, kind);
    } else {
      assert EntriesOn(es, k) + [] == EntriesOn(es, k);
    }
  }

  lemma {:induction false} OneSide(es: seq<Entry>, k: Key, f: Entry -> int, kind: EntryKind)
    requires forall e :: f(e) == if e.On() == k && e.kind == kind then e.amount else 0
    ensures Sum(es, f) == AmountOf(EntriesOn(es, k), kind)
  {
    if es == [] {
    } else {
      OneSide(es[..|es| - 1], k, f, kind);
      OneMoreSide(es[..|es| - 1], es[|es| - 1], k, kind);
      assert es == es[..|es| - 1] + [es[|es| - 1]];
    }
  }

  lemma {:induction false} HowMany(es: seq<Entry>, k: Key)
    ensures Sum(es, OneOn(k)) == |EntriesOn(es, k)|
  {
    if es == [] {
    } else {
      var e := es[|es| - 1];
      HowMany(es[..|es| - 1], k);
      assert e.On() == k <==> e.account == k.account && e.currency == k.currency;
    }
  }

  /** Each side of a list of entries, and their number, entry by entry. */
  lemma SidesOfEntries(es: seq<Entry>, k: Key)
    ensures Sum(es, CreditOn(k)) == AmountOf(EntriesOn(es, k), Credit)
    ensures Sum(es, DebitOn(k)) == AmountOf(EntriesOn(es, k), Debit)
    ensures Sum(es, OneOn(k)) == |EntriesOn(es, k)|
  {
    OneSide(es, k, CreditOn(k), Credit);
    OneSide(es, k, DebitOn(k), Debit);
    HowMany(es, k);
  }

  /** How a new transaction shows in an aggregate: its rows on the key, if it is in the state and the window. */
  lemma AggregateGrows(txns: seq<Txn>, t: Txn, k: Key, state: TxnState, after: Option<int>, upTo: Option<int>)
    ensures var before, now := Aggregate(txns, k, state, after, upTo), Aggregate(txns + [t], k, state, after, upTo);
      var rows := EntriesOn(t.entries, k);
      now == if InWindow(t, state, after, upTo)
        then Totals(before.credits + AmountOf(rows, Credit), before.debits + AmountOf(rows, Debit), before.count + |rows|) else before
  {
    SumPush(txns, t, Pick(EntrySum(CreditOn(k)), state, after, upTo));
    SumPush(txns, t, Pick(EntrySum(DebitOn(k)), state, after, upTo));
    SumPush(txns, t, Pick(EntrySum(OneOn(k)), state, after, upTo));
    SidesOfEntries(t.entries, k);
  }

  lemma JoinedPush(txns: seq<Txn>, t: Txn, k: Key, state: TxnState, after: Option<int>, upTo: Option<int>)
    ensures Joined(txns + [t], k, state, after, upTo)
         == Joined(txns, k, state, after, upTo) + if InWindow(t, state, after, upTo) then EntriesOn(t.entries, k) else []
  {
    assert (txns + [t])[..|txns|] == txns;
  }

  /** The aggregate is the credits, the debits and the number of the joined rows, each on its own. */
  lemma {:induction false} AggregateIsTheQuery(txns: seq<Txn>, k: Key, state: TxnState, after: Option<int>, upTo: Option<int>)
    ensures var rows := Joined(txns, k, state, after, upTo);
      Aggregate(txns, k, state, after, upTo) == Totals(AmountOf(rows, Credit), AmountOf(rows, Debit), |rows|)
  {
    if txns == [] {
    } else {
      var front, t := txns[..|txns| - 1], txns[|txns| - 1];
      AggregateIsTheQuery(front, k, state, after, upTo);
      assert txns == front + [t];
      AggregateGrows(front, t, k, state, after, upTo);
      JoinedPush(front, t, k, state, after, upTo);
      var rows := Joined(front, k, state, after, upTo);
      if InWindow(t, state, after, upTo) {
        AmountsAddUp(rows, EntriesOn(t.entries, k), Credit);
        AmountsAddUp(rows, EntriesOn(t.entries, k), Debit);
      } else {
        assert rows + [] == rows;
      }
    }
  }

  // ----- snapshots

  /** The newest snapshot of k taken at or before the bound: ORDER BY snapshot_at DESC LIMIT 1. */
  function LatestSnapshot(snaps: seq<Snapshot>, k: Key, bound: Option<int>): (r: Option<Snapshot>)
    ensures r.Some? ==> r.value in snaps && Eligible(r.value, k, bound)
    ensures r.Some? ==> forall s | s in snaps && Eligible(s, k, bound) :: s.at <= r.value.at
    ensures r.None? ==> forall s | s in snaps :: !Eligible(s, k, bound)
  {
    if snaps == [] then None
    else
      var n := |snaps| - 1;
      var rest := LatestSnapshot(snaps[..n], k, bound);
      assert snaps == snaps[..n] + [snaps[n]];
      if Eligible(snaps[n], k, bound) && (rest.None? || rest.value.at < snaps[n].at) then Some(snaps[n]) else rest
  }

  predicate Eligible(s: Snapshot, k: Key, bound: Option<int>) {
    s.key == k && (bound.Some? ==> s.at <= bound.value)
  }

  /** Common tail of both balance queries: starting point, settled delta, pending amounts, sum. */
  function Combine(start: Option<Snapshot>, delta: Totals, pending: Totals): Balance {
    var settled := (if start.Some? then start.value.settled else 0) + (delta.credits - delta.debits);
    var count := (if start.Some? then start.value.count else 0) + delta.count;
    Balance(settled, pending.debits, pending.credits, settled + pending.credits - pending.debits, count)
  }

  function StartTime(start: Option<Snapshot>): Option<int> {
    if start.Some? then Some(start.value.at) else None
  }

  function CurrentBalance(l: Ledger, k: Key): Balance {
    var start := LatestSnapshot(l.snapshots, k, None);
    Combine(start,
      Aggregate(l.txns, k, Settled, StartTime(start), None),
      Aggregate(l.txns, k, Pending, None, None))
  }

  function HistoricalBalance(l: Ledger, k: Key, asOf: int): Balance {
    var start := LatestSnapshot(l.snapshots, k, Some(asOf));
    Combine(start,
      Aggregate(l.txns, k, Settled, StartTime(start), Some(asOf)),
      Aggregate(l.txns, k, Pending, None, Some(asOf)))
  }

  /** Pending debits and credits of both balance queries, side by side, straight from the entries. */
  lemma PendingSides(l: Ledger, k: Key, asOf: int)
    ensures var rows := Joined(l.txns, k, Pending, None, None);
      CurrentBalance(l, k).pendingDebits == AmountOf(rows, Debit) && CurrentBalance(l, k).pendingCredits == AmountOf(rows, Credit)
    ensures var rows := Joined(l.txns, k, Pending, None, Some(asOf));
      var past := HistoricalBalance(l, k, asOf);
      past.pendingDebits == AmountOf(rows, Debit) && past.pendingCredits == AmountOf(rows, Credit)
  {
    AggregateIsTheQuery(l.txns, k, Pending, None, None);
    AggregateIsTheQuery(l.txns, k, Pending, None, Some(asOf));
  }

  /** Two readings differ by the pending rows alone, each side on its own. */
  predicate PendingGrewBy(before: Balance, now: Balance, rows: seq<Entry>) {
    && now.pendingDebits == before.pendingDebits + AmountOf(rows, Debit)
    && now.pendingCredits == before.pendingCredits + AmountOf(rows, Credit)
    && now.settled == before.settled && now.count == before.count
  }

  lemma CombinedGrows(start: Option<Snapshot>, delta: Totals, p: Totals, q: Totals, rows: seq<Entry>)
    requires q.credits == p.credits + AmountOf(rows, Credit) && q.debits == p.debits + AmountOf(rows, Debit)
    ensures PendingGrewBy(Combine(start, delta, p), Combine(start, delta, q), rows)
  {
  }

  lemma PendingAggregates(txns: seq<Txn>, t: Txn, k: Key, after: Option<int>, upTo: Option<int>)
    requires t.state.Pending?
    ensures Aggregate(txns + [t], k, Settled, after, upTo) == Aggregate(txns, k, Settled, after, upTo)
    ensures var rows := if upTo.None? || t.postedAt <= upTo.value then EntriesOn(t.entries, k) else [];
      var p, q := Aggregate(txns, k, Pending, None, upTo), Aggregate(txns + [t], k, Pending, None, upTo);
      q.credits == p.credits + AmountOf(rows, Credit) && q.debits == p.debits + AmountOf(rows, Debit)
  {
    AggregateGrows(txns, t, k, Settled, after, upTo);
    AggregateGrows(txns, t, k, Pending, None, upTo);
  }

  /** A pending post shows at once in the pending amounts of the current balance, and in nothing settled. */
  lemma PendingPostShows(l: Ledger, t: Txn, k: Key)
    requires t.state.Pending?
    ensures PendingGrewBy(CurrentBalance(l, k), CurrentBalance(Insert(l, t), k), EntriesOn(t.entries, k))
  {
    var start := LatestSnapshot(l.snapshots, k, None);
    PendingAggregates(l.txns, t, k, StartTime(start), None);
    CombinedGrows(start, Aggregate(l.txns, k, Settled, StartTime(start), None),
      Aggregate(l.txns, k, Pending, None, None), Aggregate(l.txns + [t], k, Pending, None, None), EntriesOn(t.entries, k));
  }

  /** And in those of the historical balance from its posting time on. */
  lemma PendingPostShowsThen(l: Ledger, t: Txn, k: Key, asOf: int)
    requires t.state.Pending?
    ensures PendingGrewBy(HistoricalBalance(l, k, asOf), HistoricalBalance(Insert(l, t), k, asOf),
      if t.postedAt <= asOf then EntriesOn(t.entries, k) else [])
  {
    var start := LatestSnapshot(l.snapshots, k, Some(asOf));
    var rows := if t.postedAt <= asOf then EntriesOn(t.entries, k) else [];
    PendingAggregates(l.txns, t, k, StartTime(start), Some(asOf));
    CombinedGrows(start, Aggregate(l.txns, k, Settled, StartTime(start), Some(asOf)),
      Aggregate(l.txns, k, Pending, None, Some(asOf)), Aggregate(l.txns + [t], k, Pending, None, Some(asOf)), rows);
  }

  /** The snapshot-free reading: everything folded from the entries. */
  function FoldedBalance(txns: seq<Txn>, k: Key, upTo: Option<int>): Balance {
    Combine(None, Aggregate(txns, k, Settled, None, upTo), Aggregate(txns, k, Pending, None, upTo))
  }

  // ----- true balances

  function SettledOn(txns: seq<Txn>, k: Key): int { Net(txns, k, Settled, None, None) }

  function PendingOn(txns: seq<Txn>, k: Key): int { Net(txns, k, Pending, None, None) }

  function AvailableOn(txns: seq<Txn>, k: Key): int { SettledOn(txns, k) + PendingOn(txns, k) }

  lemma FoldedIsTrue(txns: seq<Txn>, k: Key)
    ensures FoldedBalance(txns, k, None).settled == SettledOn(txns, k)
    ensures FoldedBalance(txns, k, None).available == AvailableOn(txns, k)
  {
    CreditsMinusDebits(txns, k, Settled, None, None);
    CreditsMinusDebits(txns, k, Pending, None, None);
  }

  /** What one transaction adds to the available balance of k. */
  function Holding(k: Key): Txn -> int {
    (t: Txn) => if t.state.Cancelled? then 0 else Impact(t.entries, k)
  }

  lemma AvailableIsOneFold(txns: seq<Txn>, k: Key)
    ensures AvailableOn(txns, k) == Sum(txns, Holding(k))
  {
    var settled := Pick(EntrySum(SignedOn(k)), Settled, None, None);
    var pending := Pick(EntrySum(SignedOn(k)), Pending, None, None);
    forall i | 0 <= i < |txns| ensures Holding(k)(txns[i]) == settled(txns[i]) + pending(txns[i]) {
      assert Impact(txns[i].entries, k) == EntrySum(SignedOn(k))(txns[i].entries);
    }
    SumPlus(txns, settled, pending, Holding(k));
  }
}

/**
 * Conservation of value. Debits equal credits in every transaction, so all balances together are
 * zero, in every state, time window and reachable ledger; within one currency this needs more.
 */
module Conservation {
  import opened Base
  import opened Sums
  import opened Ledger
  import opened Balances
  import opened Machine
  import opened Structure
  import opened NonNegative
  import opened Evolution

  ghost function SignedWithin(d: set<Key>): Entry -> int {
    (e: Entry) => if e.On() in d then e.Signed() else 0
  }

  /** The net balance of k over the chosen rows, as a function of k. */
  ghost function NetOf(txns: seq<Txn>, state: TxnState, after: Option<int>, upTo: Option<int>): Key -> int {
    (k: Key) => Sum(txns, Pick(EntrySum(SignedOn(k)), state, after, upTo))
  }

  ghost function ImpactOf(es: seq<Entry>): Key -> int { (k: Key) => Sum(es, SignedOn(k)) }

  /** Adding the impacts on all keys of d counts every entry on those keys once. */
  lemma {:induction false} ImpactsAddUp(es: seq<Entry>, d: set<Key>)
    ensures SumSet(d, ImpactOf(es)) == Sum(es, SignedWithin(d))
  {
    if es == [] {
      SumSetZero(d, ImpactOf(es));
    } else {
      var front, e := es[..|es| - 1], es[|es| - 1];
      ImpactsAddUp(front, d);
      var last := (k: Key) => SignedOn(k)(e);
      SumSetPlus(d, ImpactOf(front), last, ImpactOf(es));
      if e.On() in d {
        SumSetSingle(d, e.On(), last);
      } else {
        SumSetZero(d, last);
      }
    }
  }

  /** Balances added over a set of keys equal entries added over transactions. */
  lemma {:induction false} BalancesAddUp(txns: seq<Txn>, d: set<Key>, state: TxnState, after: Option<int>, upTo: Option<int>)
    ensures SumSet(d, NetOf(txns, state, after, upTo)) == Sum(txns, Pick(EntrySum(SignedWithin(d)), state, after, upTo))
  {
    if txns == [] {
      SumSetZero(d, NetOf(txns, state, after, upTo));
    } else {
      var front, t := txns[..|txns| - 1], txns[|txns| - 1];
      BalancesAddUp(front, d, state, after, upTo);
      var last := (k: Key) => Pick(EntrySum(SignedOn(k)), state, after, upTo)(t);
      SumSetPlus(d, NetOf(front, state, after, upTo), last, NetOf(txns, state, after, upTo));
      if Pick((es: seq<Entry>) => 1, state, after, upTo)(t) == 1 {
        ImpactsAddUp(t.entries, d);
        SumSetSame(d, last, ImpactOf(t.entries));
      } else {
        SumSetZero(d, last);
      }
    }
  }

  ghost predicate Covers(d: set<Key>, txns: seq<Txn>) {
    forall i, e | 0 <= i < |txns| && e in txns[i].entries :: e.On() in d
  }

  /** d holds exactly the keys of one currency, as far as the entries go. */
  ghost predicate CoversCurrency(d: set<Key>, txns: seq<Txn>, c: string) {
    forall i, e | 0 <= i < |txns| && e in txns[i].entries :: e.On() in d <==> e.currency == c
  }

  /**
   * In every reachable ledger, for every state and time window, the balances of all accounts and
   * currencies add up to zero: the settled ones, the pending ones, now and at any past time.
   */
  lemma ValueIsConserved(steps: seq<Step>, d: set<Key>, state: TxnState, after: Option<int>, upTo: Option<int>)
    requires Legal(EMPTY, steps) && Covers(d, After(EMPTY, steps).txns)
    ensures SumSet(d, NetOf(After(EMPTY, steps).txns, state, after, upTo)) == 0
  {
    RunKeeps(EMPTY, steps);
    var l := After(EMPTY, steps);
    BalancesAddUp(l.txns, d, state, after, upTo);
    var pick := Pick(EntrySum(SignedWithin(d)), state, after, upTo);
    forall i | 0 <= i < |l.txns| ensures pick(l.txns[i]) == 0 {
      assert RowSound(l.accounts, l.txns[i]);
      SumSame(l.txns[i].entries, l.txns[i].entries, SignedWithin(d), AnySigned());
    }
    SumZero(l.txns, pick);
  }

  ghost function PendingDebitsOf(txns: seq<Txn>): Key -> int {
    (k: Key) => Aggregate(txns, k, Pending, None, None).debits
  }

  ghost function PendingCreditsOf(txns: seq<Txn>): Key -> int {
    (k: Key) => Aggregate(txns, k, Pending, None, None).credits
  }

  /** All pending debits equal all pending credits. */
  lemma PendingSidesAgree(steps: seq<Step>, d: set<Key>)
    requires Legal(EMPTY, steps) && Covers(d, After(EMPTY, steps).txns)
    ensures SumSet(d, PendingDebitsOf(After(EMPTY, steps).txns)) == SumSet(d, PendingCreditsOf(After(EMPTY, steps).txns))
  {
    var txns := After(EMPTY, steps).txns;
    ValueIsConserved(steps, d, Pending, None, None);
    forall k | k in d
      ensures PendingCreditsOf(txns)(k) == NetOf(txns, Pending, None, None)(k) + PendingDebitsOf(txns)(k)
    {
      CreditsMinusDebits(txns, k, Pending, None, None);
    }
    SumSetPlus(d, NetOf(txns, Pending, None, None), PendingDebitsOf(txns), PendingCreditsOf(txns));
  }

  /** Within a currency the balances add up to what the transactions leave unbalanced in it. */
  lemma CurrencyTotal(txns: seq<Txn>, d: set<Key>, c: string, state: TxnState, after: Option<int>, upTo: Option<int>)
    requires CoversCurrency(d, txns, c)
    ensures SumSet(d, NetOf(txns, state, after, upTo)) == Sum(txns, Pick(EntrySum(SignedIn(c)), state, after, upTo))
  {
    BalancesAddUp(txns, d, state, after, upTo);
    var within, ofCurrency := Pick(EntrySum(SignedWithin(d)), state, after, upTo), Pick(EntrySum(SignedIn(c)), state, after, upTo);
    forall i | 0 <= i < |txns| ensures within(txns[i]) == ofCurrency(txns[i]) {
      SumSame(txns[i].entries, txns[i].entries, SignedWithin(d), SignedIn(c));
    }
    SumSame(txns, txns, within, ofCurrency);
  }

  // ----- one currency, step by step

  function SettledIn(c: string): Request -> int {
    (r: Request) => if r.state.Settled? then Sum(r.entries, SignedIn(c)) else 0
  }

  function SettledTotal(txns: seq<Txn>, c: string): int { Sum(txns, Pick(EntrySum(SignedIn(c)), Settled, None, None)) }

  /** What a step adds to the settled total of c. */
  function Adds(l: Ledger, s: Step, c: string): int
    requires Enabled(l, s)
  {
    match s
    case Post(_, r, _) => if r.state.Settled? then Sum(r.entries, SignedIn(c)) else 0
    case Batch(_, reqs, _) => Sum(reqs, SettledIn(c))
    case Settle(target, _) => Sum(l.txns[Position(l.txns, target)].entries, SignedIn(c))
    case Reverse(target, _, _, _, state, _) =>
      if state.Settled? then -Sum(l.txns[Position(l.txns, target)].entries, SignedIn(c)) else 0
    case _ => 0
  }

  lemma InsertAdds(txns: seq<Txn>, t: Txn, c: string)
    ensures SettledTotal(txns + [t], c) == SettledTotal(txns, c) + if t.state.Settled? then Sum(t.entries, SignedIn(c)) else 0
  {
    SumPush(txns, t, Pick(EntrySum(SignedIn(c)), Settled, None, None));
  }

  lemma ReplaceAdds(txns: seq<Txn>, i: int, u: Txn, c: string)
    requires 0 <= i < |txns| && u.entries == txns[i].entries
    ensures var value := Sum(u.entries, SignedIn(c));
      SettledTotal(txns[i := u], c)
      == SettledTotal(txns, c) + (if u.state.Settled? then value else 0) - if txns[i].state.Settled? then value else 0
  {
    SumUpdate(txns, i, u, Pick(EntrySum(SignedIn(c)), Settled, None, None));
  }

  lemma {:induction false} BatchAdds(l: Ledger, reqs: seq<Request>, ids: seq<nat>, base: int, c: string)
    requires |ids| == |reqs| && InsertAll(l, reqs, ids, base).Some?
    ensures SettledTotal(InsertAll(l, reqs, ids, base).value.txns, c) == SettledTotal(l.txns, c) + Sum(reqs, SettledIn(c))
  {
    if reqs == [] {
    } else {
      var n := |reqs| - 1;
      BatchAdds(l, reqs[..n], ids[..n], base, c);
      InsertAdds(InsertAll(l, reqs[..n], ids[..n], base).value.txns, MakeTxn(ids[n], reqs[n], None, base + n), c);
    }
  }

  lemma ReverseAdds(l: Ledger, i: int, fetched: seq<Entry>, id: nat, key: Option<string>, state: TxnState, at: int, c: string)
    requires 0 <= i < |l.txns| && SameEntries(l.txns[i].entries, fetched)
    ensures SettledTotal(Reversing(l, i, fetched, id, key, state, at).txns, c)
         == SettledTotal(l.txns, c) - if state.Settled? then Sum(l.txns[i].entries, SignedIn(c)) else 0
  {
    var t := MakeTxn(id, ReversalOf(fetched, key, state), Some(l.txns[i].id), at);
    InsertAdds(l.txns, t, c);
    ReplaceAdds(l.txns + [t], i, l.txns[i].(reversedBy := Some(id)), c);
    FlippedNegates(fetched);
    OrderDoesNotMatter(l.txns[i].entries, fetched);
  }

  lemma StepAdds(l: Ledger, s: Step, c: string)
    requires Enabled(l, s)
    ensures SettledTotal(Apply(l, s).txns, c) == SettledTotal(l.txns, c) + Adds(l, s, c)
  {
    match s
    case CreateAccount(_, _) =>
    case Post(id, r, at) => InsertAdds(l.txns, MakeTxn(id, r, None, at), c);
    case Batch(ids, reqs, base) => BatchAdds(l, reqs, ids, base, c);
    case Settle(target, at) =>
      var i := Position(l.txns, target);
      ReplaceAdds(l.txns, i, Settling(l, i, at).txns[i], c);
    case Cancel(target) =>
      var i := Position(l.txns, target);
      ReplaceAdds(l.txns, i, Cancelling(l, i).txns[i], c);
    case Reverse(target, fetched, id, key, state, at) =>
      ReverseAdds(l, Position(l.txns, target), fetched, id, key, state, at, c);
    case Capture(_, _) =>
  }

  /** The step settles nothing that is unbalanced in c; a batch may make up for itself. */
  ghost predicate SettlesBalanced(l: Ledger, s: Step, c: string)
    requires Enabled(l, s)
  {
    match s
    case Post(_, r, _) => r.state.Settled? ==> BalancedIn(r.entries, c)
    case Batch(_, reqs, _) => Sum(reqs, SettledIn(c)) == 0
    case Settle(target, _) => BalancedIn(l.txns[Position(l.txns, target)].entries, c)
    case Reverse(target, _, _, _, state, _) => state.Settled? ==> BalancedIn(l.txns[Position(l.txns, target)].entries, c)
    case _ => true
  }

  lemma EarlierCovered(l: Ledger, s: Step, d: set<Key>, c: string)
    requires Enabled(l, s) && CoversCurrency(d, Apply(l, s).txns, c)
    ensures CoversCurrency(d, l.txns, c)
  {
    StepEvolves(l, s);
    forall i, e | 0 <= i < |l.txns| && e in l.txns[i].entries ensures e.On() in d <==> e.currency == c {
      assert Descends(l.txns[i], Apply(l, s).txns[i]);
    }
  }

  /** A step of any kind keeps a conserved currency conserved exactly when it settles nothing unbalanced in it. */
  lemma StepConservesCurrencyIff(l: Ledger, s: Step, d: set<Key>, c: string)
    requires Enabled(l, s) && CoversCurrency(d, Apply(l, s).txns, c)
    requires SumSet(d, NetOf(l.txns, Settled, None, None)) == 0
    ensures SumSet(d, NetOf(Apply(l, s).txns, Settled, None, None)) == 0 <==> SettlesBalanced(l, s, c)
  {
    EarlierCovered(l, s, d, c);
    CurrencyTotal(l.txns, d, c, Settled, None, None);
    CurrencyTotal(Apply(l, s).txns, d, c, Settled, None, None);
    StepAdds(l, s, c);
  }

  // ----- one currency, over runs

  /** The requests of a step balance in c; reversals bring no entries of their own. */
  ghost predicate AsksBalanced(s: Step, c: string) {
    match s
    case Post(_, r, _) => BalancedIn(r.entries, c)
    case Batch(_, reqs, _) => forall i | 0 <= i < |reqs| :: BalancedIn(reqs[i].entries, c)
    case _ => true
  }

  ghost predicate AllBalanced(txns: seq<Txn>, c: string) {
    forall i | 0 <= i < |txns| :: BalancedIn(txns[i].entries, c)
  }

  lemma StepKeepsBalanced(l: Ledger, s: Step, c: string)
    requires Enabled(l, s) && AllBalanced(l.txns, c) && AsksBalanced(s, c)
    ensures AllBalanced(Apply(l, s).txns, c)
  {
    if s.Batch? {
      BatchAppends(l, s.requests, s.ids, s.base);
    } else if s.Reverse? {
      var i := Position(l.txns, s.target);
      FlippedNegates(s.fetched);
      OrderDoesNotMatter(l.txns[i].entries, s.fetched);
    }
  }

  lemma {:induction false} RunKeepsBalanced(steps: seq<Step>, c: string)
    requires Legal(EMPTY, steps) && forall i | 0 <= i < |steps| :: AsksBalanced(steps[i], c)
    ensures AllBalanced(After(EMPTY, steps).txns, c)
    decreases |steps|
  {
    if steps == [] {
    } else {
      var n := |steps| - 1;
      RunKeepsBalanced(steps[..n], c);
      StepKeepsBalanced(After(EMPTY, steps[..n]), steps[n], c);
    }
  }

  /** A run whose requests each balance in a currency conserves it, in every state and time window. */
  lemma CurrencyIsConserved(steps: seq<Step>, d: set<Key>, c: string, state: TxnState, after: Option<int>, upTo: Option<int>)
    requires Legal(EMPTY, steps) && forall i | 0 <= i < |steps| :: AsksBalanced(steps[i], c)
    requires CoversCurrency(d, After(EMPTY, steps).txns, c)
    ensures SumSet(d, NetOf(After(EMPTY, steps).txns, state, after, upTo)) == 0
  {
    var txns := After(EMPTY, steps).txns;
    RunKeepsBalanced(steps, c);
    CurrencyTotal(txns, d, c, state, after, upTo);
    SumZero(txns, Pick(EntrySum(SignedIn(c)), state, after, upTo));
  }

  /**
   * The validator's check runs over all currencies together, so an exchange between two of them is
   * accepted on any two keys that allow negatives, and its settling takes the amount out of one
   * currency and puts it into the other.
   */
  lemma ExchangeIsAccepted(l: Ledger, a: Key, b: Key, amount: nat, id: nat)
    requires Open(l, a) && Open(l, b) && a.currency != b.currency && IdFree(l.txns, id)
    ensures var s := Post(id, Transfer(a, b, amount), l.clock);
      && Enabled(l, s)
      && Adds(l, s, a.currency) == -(amount as int)
      && Adds(l, s, b.currency) == amount
  {
    TransferFacts(a, b, amount);
    var es := Transfer(a, b, amount).entries;
    forall e | e in es ensures KeyAccepted(l, es, e.On()) {
      assert e.On() == a || e.On() == b;
    }
    assert es == [es[0]] + [es[1]];
    forall f: Entry -> int ensures Sum(es, f) == f(es[0]) + f(es[1]) {
      SumPush([es[0]], es[1], f);
      SumPush([], es[0], f);
      assert [] + [es[0]] == [es[0]];
    }
  }
}

/**
 * Negative-balance policy. The guard looks at the available balance of keys a request lowers; here is
 * what that buys over whole runs, where it stops short (cancel, batch, stale snapshots), and exactly when.
 */
module NonNegative {
  import opened Base
  import opened Sums
  import opened Ledger
  import opened Balances
  import opened Machine
  import opened Evolution
  import opened Structure
  import opened History

  ghost predicate Guarded(l: Ledger, k: Key) {
    k.account in l.accounts && k.currency in l.accounts[k.account] && !l.accounts[k.account][k.currency]
  }

  ghost predicate NonNeg(l: Ledger) {
    forall k | Guarded(l, k) :: AvailableOn(l.txns, k) >= 0
  }

  // ----- how each row change moves the available balance

  lemma InsertMoves(txns: seq<Txn>, t: Txn, k: Key)
    requires !t.state.Cancelled?
    ensures AvailableOn(txns + [t], k) == AvailableOn(txns, k) + Impact(t.entries, k)
  {
    AvailableIsOneFold(txns, k);
    AvailableIsOneFold(txns + [t], k);
    SumPush(txns, t, Holding(k));
  }

  lemma ReplaceMoves(txns: seq<Txn>, i: int, u: Txn, k: Key)
    requires 0 <= i < |txns| && u.entries == txns[i].entries && !txns[i].state.Cancelled?
    ensures AvailableOn(txns[i := u], k)
         == AvailableOn(txns, k) - if u.state.Cancelled? then Impact(u.entries, k) else 0
  {
    AvailableIsOneFold(txns, k);
    AvailableIsOneFold(txns[i := u], k);
    SumUpdate(txns, i, u, Holding(k));
  }

  /** Settling moves value from pending to settled: no available balance changes. */
  lemma SettleKeepsAvailable(l: Ledger, i: int, at: int, k: Key)
    requires 0 <= i < |l.txns| && l.txns[i].state.Pending?
    ensures AvailableOn(Settling(l, i, at).txns, k) == AvailableOn(l.txns, k)
  {
    ReplaceMoves(l.txns, i, Settling(l, i, at).txns[i], k);
  }

  /** Cancelling takes back exactly the transaction's impact. */
  lemma CancelSubtractsImpact(l: Ledger, i: int, k: Key)
    requires 0 <= i < |l.txns| && l.txns[i].state.Pending?
    ensures AvailableOn(Cancelling(l, i).txns, k) == AvailableOn(l.txns, k) - Impact(l.txns[i].entries, k)
  {
    ReplaceMoves(l.txns, i, Cancelling(l, i).txns[i], k);
  }

  /** A reversal takes back the original's impact at once, pending or settled. */
  lemma ReverseSubtractsImpact(l: Ledger, i: int, fetched: seq<Entry>, id: nat, key: Option<string>, state: TxnState, at: int, k: Key)
    requires 0 <= i < |l.txns| && l.txns[i].state.Settled? && !state.Cancelled? && SameEntries(l.txns[i].entries, fetched)
    ensures AvailableOn(Reversing(l, i, fetched, id, key, state, at).txns, k)
         == AvailableOn(l.txns, k) - Impact(l.txns[i].entries, k)
  {
    var t := MakeTxn(id, ReversalOf(fetched, key, state), Some(l.txns[i].id), at);
    InsertMoves(l.txns, t, k);
    ReplaceMoves(l.txns + [t], i, l.txns[i].(reversedBy := Some(id)), k);
    FlippedNegates(fetched);
    OrderDoesNotMatter(l.txns[i].entries, fetched);
  }

  // ----- batches

  function RequestImpact(k: Key): Request -> int { (r: Request) => Sum(r.entries, SignedOn(k)) }

  /** The requests of a batch that lower k. */
  function Debiting(reqs: seq<Request>, k: Key): nat {
    if reqs == [] then 0
    else Debiting(reqs[..|reqs| - 1], k) + if Impact(reqs[|reqs| - 1].entries, k) < 0 then 1 else 0
  }

  lemma {:induction false} BatchMoves(l: Ledger, reqs: seq<Request>, ids: seq<nat>, base: int, k: Key)
    requires |ids| == |reqs| && InsertAll(l, reqs, ids, base).Some?
    requires forall i | 0 <= i < |reqs| :: !reqs[i].state.Cancelled?
    ensures AvailableOn(InsertAll(l, reqs, ids, base).value.txns, k)
         == AvailableOn(l.txns, k) + Sum(reqs, RequestImpact(k))
  {
    if reqs == [] {
    } else {
      var n := |reqs| - 1;
      BatchMoves(l, reqs[..n], ids[..n], base, k);
      var front := InsertAll(l, reqs[..n], ids[..n], base).value;
      InsertMoves(front.txns, MakeTxn(ids[n], reqs[n], None, base + n), k);
    }
  }

  lemma {:induction false} ImpactsBounded(reqs: seq<Request>, k: Key, available: int)
    requires forall i | 0 <= i < |reqs| :: Impact(reqs[i].entries, k) >= 0 || available + Impact(reqs[i].entries, k) >= 0
    ensures Sum(reqs, RequestImpact(k)) >= -(Debiting(reqs, k) * available)
  {
    if reqs == [] {
    } else {
      ImpactsBounded(reqs[..|reqs| - 1], k, available);
    }
  }

  lemma GuardedImpact(l: Ledger, es: seq<Entry>, k: Key)
    requires Guarded(l, k) && Accepts(l, es)
    ensures Impact(es, k) >= 0 || CurrentBalance(l, k).available + Impact(es, k) >= 0
  {
    if e :| e in es && e.On() == k {
      assert KeyAccepted(l, es, e.On());
    } else {
      UntouchedKey(es, k);
    }
  }

  lemma {:induction false} DebitingNeedsFunds(reqs: seq<Request>, k: Key, available: int)
    requires forall i | 0 <= i < |reqs| :: Impact(reqs[i].entries, k) >= 0 || available + Impact(reqs[i].entries, k) >= 0
    ensures Debiting(reqs, k) >= 1 ==> available >= 0
  {
    if reqs == [] {
    } else {
      DebitingNeedsFunds(reqs[..|reqs| - 1], k, available);
    }
  }

  /**
   * Every request of a batch is checked against the ledger before the batch. If d of them lower a
   * guarded key whose available balance reads R, the batch takes at most d*R from it. So with an
   * exact reading and d = 1 nothing is overdrawn, and with d = 0 the balance does not fall.
   */
  lemma BatchBound(l: Ledger, ids: seq<nat>, reqs: seq<Request>, base: int, k: Key)
    requires Enabled(l, Batch(ids, reqs, base)) && Guarded(l, k)
    ensures var reading := CurrentBalance(l, k).available;
      var d := Debiting(reqs, k);
      && AvailableOn(Apply(l, Batch(ids, reqs, base)).txns, k) >= AvailableOn(l.txns, k) - d * reading
      && (d >= 1 ==> reading >= 0)
  {
    var reading := CurrentBalance(l, k).available;
    forall i | 0 <= i < |reqs|
      ensures Impact(reqs[i].entries, k) >= 0 || reading + Impact(reqs[i].entries, k) >= 0
    {
      GuardedImpact(l, reqs[i].entries, k);
    }
    ImpactsBounded(reqs, k, reading);
    BatchMoves(l, reqs, ids, base, k);
    DebitingNeedsFunds(reqs, k, reading);
  }

  // ----- the bound is attained

  /** Move an amount from one key to another. */
  function Transfer(source: Key, target: Key, amount: nat): Request {
    Request(None, Settled, [Entry(source.account, source.currency, amount, Debit),
                            Entry(target.account, target.currency, amount, Credit)])
  }

  lemma TransferFacts(source: Key, target: Key, amount: nat)
    requires source != target
    ensures WellFormed(Transfer(source, target, amount))
    ensures Impact(Transfer(source, target, amount).entries, source) == -(amount as int)
    ensures Impact(Transfer(source, target, amount).entries, target) == amount
  {
    var a, b := Entry(source.account, source.currency, amount, Debit), Entry(target.account, target.currency, amount, Credit);
    assert Transfer(source, target, amount).entries == [a] + [b];
    forall f: Entry -> int ensures Sum([a] + [b], f) == f(a) + f(b) {
      SumPush([a], b, f);
      SumPush([], a, f);
      assert [] + [a] == [a];
    }
  }

  ghost predicate Open(l: Ledger, k: Key) {
    k.account in l.accounts && k.currency in l.accounts[k.account] && l.accounts[k.account][k.currency]
  }

  lemma TransferSides(source: Key, target: Key, amount: nat, k: Key)
    requires source != target
    ensures var rows := EntriesOn(Transfer(source, target, amount).entries, k);
      && AmountOf(rows, Debit) == (if k == source then amount else 0)
      && AmountOf(rows, Credit) == (if k == target then amount else 0)
  {
    var es := Transfer(source, target, amount).entries;
    var a, b := es[0], es[1];
    assert es == [a] + [b] && [a] == [] + [a];
    forall kind ensures AmountOf(EntriesOn(es, k), kind)
      == (if a.On() == k && a.kind == kind then a.amount else 0) + if b.On() == k && b.kind == kind then b.amount else 0
    {
      OneMoreSide([], a, k, kind);
      OneMoreSide([a], b, k, kind);
    }
  }

  /** A pending transfer reads as pending debits where it comes from and pending credits where it goes, and not otherwise. */
  lemma PendingTransferShows(l: Ledger, source: Key, target: Key, amount: nat, id: nat, at: int)
    requires source != target
    ensures var m := Insert(l, MakeTxn(id, Transfer(source, target, amount).(state := Pending), None, at));
      && CurrentBalance(m, source).pendingDebits == CurrentBalance(l, source).pendingDebits + amount
      && CurrentBalance(m, source).pendingCredits == CurrentBalance(l, source).pendingCredits
      && CurrentBalance(m, target).pendingDebits == CurrentBalance(l, target).pendingDebits
      && CurrentBalance(m, target).pendingCredits == CurrentBalance(l, target).pendingCredits + amount
  {
    var t := MakeTxn(id, Transfer(source, target, amount).(state := Pending), None, at);
    PendingPostShows(l, t, source);
    PendingPostShows(l, t, target);
    TransferSides(source, target, amount, source);
    TransferSides(source, target, amount, target);
  }

  lemma SpotIsFound(txns: seq<Txn>, i: int)
    requires 0 <= i < |txns| && forall j | 0 <= j < |txns| && j != i :: txns[j].id != txns[i].id
    ensures Position(txns, txns[i].id) == i
  {
  }

  /** A settled transaction without links on unguarded keys can be reversed, under any free id and key. */
  lemma ReversalIsPossible(l: Ledger, i: int, id: nat, key: Option<string>, state: TxnState, at: int)
    requires Inv(l) && 0 <= i < |l.txns| && at >= l.clock
    requires l.txns[i].state.Settled? && l.txns[i].reversedBy.None? && l.txns[i].reverses.None?
    requires forall e | e in l.txns[i].entries :: Open(l, e.On())
    requires CanInsert(l.txns, id, key) && !state.Cancelled?
    ensures Enabled(l, Reverse(l.txns[i].id, l.txns[i].entries, id, key, state, at))
  {
    var es := l.txns[i].entries;
    assert RowSound(l.accounts, l.txns[i]);
    SpotIsFound(l.txns, i);
    FlippedNegates(es);
    forall e | e in Flipped(es) ensures KeyAccepted(l, Flipped(es), e.On()) {
      var j :| 0 <= j < |es| && Flipped(es)[j] == e;
      assert es[j] in es && e.On() == es[j].On();
    }
  }

  lemma TransferAccepted(l: Ledger, source: Key, target: Key, amount: nat)
    requires Guarded(l, source) && Open(l, target)
    requires CurrentBalance(l, source).available >= amount
    ensures Accepts(l, Transfer(source, target, amount).entries)
  {
    TransferFacts(source, target, amount);
    var es := Transfer(source, target, amount).entries;
    forall e | e in es ensures KeyAccepted(l, es, e.On()) {
      assert e.On() == source || e.On() == target;
    }
  }

  function Copies(r: Request, n: nat): (rs: seq<Request>)
    ensures |rs| == n && forall i | 0 <= i < n :: rs[i] == r
  {
    seq(n, i => r)
  }

  lemma {:induction false} CopiesInsert(l: Ledger, r: Request, ids: seq<nat>, base: int, k: Key)
    requires r.key.None?
    requires forall i | 0 <= i < |ids| :: IdFree(l.txns, ids[i])
    requires forall i, j | 0 <= i < j < |ids| :: ids[i] != ids[j]
    ensures InsertAll(l, Copies(r, |ids|), ids, base).Some?
    ensures Sum(Copies(r, |ids|), RequestImpact(k)) == |ids| * Impact(r.entries, k)
  {
    if ids == [] {
    } else {
      var n := |ids| - 1;
      CopiesInsert(l, r, ids[..n], base, k);
      assert Copies(r, |ids|)[..n] == Copies(r, n);
      BatchAppends(l, Copies(r, n), ids[..n], base);
    }
  }

  lemma NegatedProduct(a: int, b: int)
    ensures a * -b == -(a * b)
  {
  }

  /** For every d up to the batch limit some batch of d requests takes exactly d times the reading. */
  lemma BatchBoundIsTight(l: Ledger, k: Key, other: Key, ids: seq<nat>, base: int)
    requires Guarded(l, k) && Open(l, other) && base >= l.clock
    requires CurrentBalance(l, k).available >= 0
    requires 1 <= |ids| <= 1000
    requires forall i | 0 <= i < |ids| :: IdFree(l.txns, ids[i])
    requires forall i, j | 0 <= i < j < |ids| :: ids[i] != ids[j]
    ensures var reading := CurrentBalance(l, k).available;
      var step := Batch(ids, Copies(Transfer(k, other, reading), |ids|), base);
      && Enabled(l, step)
      && AvailableOn(Apply(l, step).txns, k) == AvailableOn(l.txns, k) - |ids| * reading
  {
    var reading := CurrentBalance(l, k).available;
    var r := Transfer(k, other, reading);
    TransferFacts(k, other, reading);
    TransferAccepted(l, k, other, reading);
    CopiesInsert(l, r, ids, base, k);
    BatchMoves(l, Copies(r, |ids|), ids, base, k);
    NegatedProduct(|ids|, reading);
  }

  // ----- when the guard is sound

  /** The balance the guard reads is not above the true one. */
  ghost predicate Honest(l: Ledger, k: Key) {
    CurrentBalance(l, k).available <= AvailableOn(l.txns, k)
  }

  /** A reading is honest exactly if the snapshot it starts from does not claim more than has settled by its time. */
  lemma HonestIff(l: Ledger, k: Key)
    ensures var start := LatestSnapshot(l.snapshots, k, None);
      Honest(l, k) <==> (start.Some? ==> start.value.settled <= Past(l.txns, Value(k), start.value.at))
  {
    ReadingGap(l, k);
  }

  /**
   * After any run since a capture the reading is honest exactly if the drift is not negative: what was
   * pending at the capture and has settled since did not, on balance, lower the key.
   */
  lemma DriftDecidesHonesty(l: Ledger, k: Key, at: int, steps: seq<Step>)
    requires Enabled(l, Capture(k, at))
    requires Legal(Apply(l, Capture(k, at)), steps)
    requires var l1 := Apply(l, Capture(k, at));
      LatestSnapshot(After(l1, steps).snapshots, k, None) == Some(l1.snapshots[|l.snapshots|])
    ensures var l1 := Apply(l, Capture(k, at));
      var m := After(l1, steps);
      |l1.txns| <= |m.txns| && (Honest(m, k) <==> Drift(l1, m, Value(k), at) >= 0)
  {
    SnapshotIsExactUpToDrift(l, k, at, steps);
    FoldedIsTrue(After(Apply(l, Capture(k, at)), steps).txns, k);
  }

  /**
   * The guard protects a key against every single request exactly when the balance it reads does not
   * exceed the true one.
   */
  lemma GuardSoundIff(l: Ledger, k: Key, other: Key, id: nat)
    requires Guarded(l, k) && Open(l, other) && IdFree(l.txns, id) && AvailableOn(l.txns, k) >= 0
    ensures (forall r | Postable(l, id, r) :: AvailableOn(l.txns + [MakeTxn(id, r, None, l.clock)], k) >= 0)
       <==> Honest(l, k)
  {
    var reading, truth := CurrentBalance(l, k).available, AvailableOn(l.txns, k);
    if reading <= truth {
      forall r | Postable(l, id, r) ensures AvailableOn(l.txns + [MakeTxn(id, r, None, l.clock)], k) >= 0 {
        GuardedImpact(l, r.entries, k);
        InsertMoves(l.txns, MakeTxn(id, r, None, l.clock), k);
      }
    } else {
      var r := Transfer(k, other, reading);
      TransferFacts(k, other, reading);
      TransferAccepted(l, k, other, reading);
      InsertMoves(l.txns, MakeTxn(id, r, None, l.clock), k);
      assert Postable(l, id, r);
    }
  }

  /**
   * A snapshot captured over a pending debit makes the guard unsound as soon as that debit settles:
   * the reading then exceeds the true balance by the debited amount.
   */
  lemma StaleSnapshotMisleadsTheGuard(l: Ledger, k: Key, at: int, i: int, now: int)
    requires Enabled(l, Capture(k, at))
    requires forall s | s in l.snapshots && s.key == k :: s.at < at
    requires 0 <= i < |l.txns| && l.txns[i].state.Pending? && l.txns[i].postedAt <= at
    requires Position(l.txns, l.txns[i].id) == i
    ensures var m := Settling(Apply(l, Capture(k, at)), i, now);
      CurrentBalance(m, k).available == AvailableOn(m.txns, k) - Impact(l.txns[i].entries, k)
  {
    var l1 := Apply(l, Capture(k, at));
    var steps := [Settle(l.txns[i].id, now)];
    var m := Settling(l1, i, now);
    OneMore(l1, [], steps[0]);
    assert [] + [steps[0]] == steps;
    SnapshotIsExactUpToDrift(l, k, at, steps);
    FoldedIsTrue(m.txns, k);
    var versions := Versions(l1, m);
    var base := Versions(l1, l1);
    assert versions == base[i := (l1.txns[i], m.txns[i])];
    SumZero(base, SettledSince(Value(k), at));
    SumUpdate(base, i, versions[i], SettledSince(Value(k), at));
  }

  /** So a post the guard lets through then overdraws the key by the settled debit. */
  lemma StaleCaptureOverdraws(l: Ledger, k: Key, other: Key, at: int, i: int, now: int, id: nat)
    requires Enabled(l, Capture(k, at))
    requires forall s | s in l.snapshots && s.key == k :: s.at < at
    requires 0 <= i < |l.txns| && l.txns[i].state.Pending? && l.txns[i].postedAt <= at
    requires Position(l.txns, l.txns[i].id) == i
    requires Guarded(l, k) && Open(l, other) && IdFree(l.txns, id)
    requires AvailableOn(l.txns, k) >= 0 > Impact(l.txns[i].entries, k)
    ensures var m := Settling(Apply(l, Capture(k, at)), i, now);
      var amount := AvailableOn(l.txns, k) - Impact(l.txns[i].entries, k);
      var r := Transfer(k, other, amount);
      && AvailableOn(m.txns, k) >= 0
      && CurrentBalance(m, k).available == amount
      && Postable(m, id, r)
      && AvailableOn(m.txns + [MakeTxn(id, r, None, m.clock)], k) == Impact(l.txns[i].entries, k) < 0
  {
    var m := Settling(Apply(l, Capture(k, at)), i, now);
    StaleSnapshotMisleadsTheGuard(l, k, at, i, now);
    SettleKeepsAvailable(Apply(l, Capture(k, at)), i, now, k);
    var reading := CurrentBalance(m, k).available;
    TransferFacts(k, other, reading);
    TransferAccepted(m, k, other, reading);
    InsertMoves(m.txns, MakeTxn(id, Transfer(k, other, reading), None, m.clock), k);
  }

  // ----- every step, exactly

  /** How a step moves the available balance of k, seen from the ledger before it. */
  function Moves(l: Ledger, s: Step, k: Key): int
    requires Enabled(l, s)
  {
    match s
    case Post(id, r, at) => Impact(r.entries, k)
    case Batch(ids, reqs, base) => Sum(reqs, RequestImpact(k))
    case Cancel(target) => -Impact(l.txns[Position(l.txns, target)].entries, k)
    case Reverse(target, _, _, _, _, _) => -Impact(l.txns[Position(l.txns, target)].entries, k)
    case _ => 0
  }

  lemma StepMoves(l: Ledger, s: Step, k: Key)
    requires Enabled(l, s)
    ensures AvailableOn(Apply(l, s).txns, k) == AvailableOn(l.txns, k) + Moves(l, s, k)
  {
    match s
    case CreateAccount(_, _) =>
    case Post(id, r, at) => InsertMoves(l.txns, MakeTxn(id, r, None, at), k);
    case Batch(ids, reqs, base) => BatchMoves(l, reqs, ids, base, k);
    case Settle(target, at) => SettleKeepsAvailable(l, Position(l.txns, target), at, k);
    case Cancel(target) => CancelSubtractsImpact(l, Position(l.txns, target), k);
    case Reverse(target, fetched, id, key, state, at) =>
      ReverseSubtractsImpact(l, Position(l.txns, target), fetched, id, key, state, at, k);
    case Capture(_, _) =>
  }

  /** Every guarded balance is at least what the step takes from it. */
  ghost predicate Covered(l: Ledger, s: Step)
    requires Enabled(l, s)
  {
    forall k | Guarded(l, k) :: AvailableOn(l.txns, k) + Moves(l, s, k) >= 0
  }

  /** A step of any kind keeps all guarded balances non-negative exactly when they cover it. */
  lemma StepNonNegIff(l: Ledger, s: Step)
    requires Inv(l) && NonNeg(l) && Enabled(l, s)
    ensures NonNeg(Apply(l, s)) <==> Covered(l, s)
  {
    var m := Apply(l, s);
    forall k ensures AvailableOn(m.txns, k) == AvailableOn(l.txns, k) + Moves(l, s, k) {
      StepMoves(l, s, k);
    }
    forall k | Guarded(m, k) && !Guarded(l, k) ensures AvailableOn(m.txns, k) == 0 {
      GuardedSince(l, s, k);
    }
    forall k | Guarded(l, k) ensures Guarded(m, k) {
      StepEvolves(l, s);
    }
  }

  lemma FreshAccountIsEmpty(l: Ledger, k: Key)
    requires Inv(l) && k.account !in l.accounts
    ensures AvailableOn(l.txns, k) == 0
  {
    AvailableIsOneFold(l.txns, k);
    forall i | 0 <= i < |l.txns| ensures Holding(k)(l.txns[i]) == 0 {
      assert RowSound(l.accounts, l.txns[i]);
      UntouchedKey(l.txns[i].entries, k);
    }
    SumZero(l.txns, Holding(k));
  }

  lemma GuardedSince(l: Ledger, s: Step, k: Key)
    requires Inv(l) && Enabled(l, s) && Guarded(Apply(l, s), k) && !Guarded(l, k)
    ensures AvailableOn(Apply(l, s).txns, k) == 0
  {
    if s.CreateAccount? {
      FreshAccountIsEmpty(l, k);
    }
  }

  /** A cancel is safe exactly if no guarded key has less available than the cancelled impact. */
  lemma CancelSafeIff(l: Ledger, target: nat)
    requires Inv(l) && Enabled(l, Cancel(target)) && NonNeg(l)
    ensures NonNeg(Apply(l, Cancel(target))) <==>
      forall k | Guarded(l, k) :: Impact(l.txns[Position(l.txns, target)].entries, k) <= AvailableOn(l.txns, k)
  {
    StepNonNegIff(l, Cancel(target));
    forall k ensures Moves(l, Cancel(target), k) == -Impact(l.txns[Position(l.txns, target)].entries, k) {
    }
  }

  /** A batch is safe exactly if every guarded key covers the sum of the impacts on it. */
  lemma BatchSafeIff(l: Ledger, ids: seq<nat>, reqs: seq<Request>, base: int)
    requires Inv(l) && Enabled(l, Batch(ids, reqs, base)) && NonNeg(l)
    ensures NonNeg(Apply(l, Batch(ids, reqs, base))) <==>
      forall k | Guarded(l, k) :: AvailableOn(l.txns, k) + Sum(reqs, RequestImpact(k)) >= 0
  {
    var s := Batch(ids, reqs, base);
    StepNonNegIff(l, s);
    forall k ensures Moves(l, s, k) == Sum(reqs, RequestImpact(k)) {
    }
  }

  /** What the guard buys: a post or reversal that lowers only keys read honestly is covered. */
  lemma GuardCovers(l: Ledger, s: Step)
    requires NonNeg(l) && Enabled(l, s) && (s.Post? || s.Reverse?)
    requires forall k | Guarded(l, k) && Moves(l, s, k) < 0 :: Honest(l, k)
    ensures Covered(l, s)
  {
    forall k | Guarded(l, k) && Moves(l, s, k) < 0 ensures AvailableOn(l.txns, k) + Moves(l, s, k) >= 0 {
      if s.Post? {
        GuardedImpact(l, s.request.entries, k);
      } else {
        GuardedImpact(l, Flipped(s.fetched), k);
        FlippedNegates(s.fetched);
        OrderDoesNotMatter(l.txns[Position(l.txns, s.target)].entries, s.fetched);
      }
    }
  }

  // ----- whole runs

  /** Posts and reversals read honestly; batches and cancels are covered; anything else is free. */
  ghost predicate SafeStep(l: Ledger, s: Step)
    requires Enabled(l, s)
  {
    match s
    case Post(_, _, _) => forall k | Guarded(l, k) && Moves(l, s, k) < 0 :: Honest(l, k)
    case Reverse(_, _, _, _, _, _) => forall k | Guarded(l, k) && Moves(l, s, k) < 0 :: Honest(l, k)
    case Batch(_, _, _) => Covered(l, s)
    case Cancel(_) => Covered(l, s)
    case _ => true
  }

  lemma SafeStepIsCovered(l: Ledger, s: Step)
    requires NonNeg(l) && Enabled(l, s) && SafeStep(l, s)
    ensures Covered(l, s)
  {
    if s.Post? || s.Reverse? {
      GuardCovers(l, s);
    }
  }

  ghost predicate SafeRun(l: Ledger, steps: seq<Step>)
    requires Legal(l, steps)
    decreases |steps|
  {
    steps == [] ||
    var n := |steps| - 1;
    SafeRun(l, steps[..n]) && SafeStep(After(l, steps[..n]), steps[n])
  }

  ghost predicate CoveredRun(l: Ledger, steps: seq<Step>)
    requires Legal(l, steps)
    decreases |steps|
  {
    steps == [] ||
    var n := |steps| - 1;
    CoveredRun(l, steps[..n]) && Covered(After(l, steps[..n]), steps[n])
  }

  /** Non-negative after each of its steps. */
  ghost predicate AlwaysNonNeg(l: Ledger, steps: seq<Step>)
    requires Legal(l, steps)
    decreases |steps|
  {
    NonNeg(After(l, steps)) && (steps == [] || AlwaysNonNeg(l, steps[..|steps| - 1]))
  }

  /** A run from the empty ledger stays non-negative throughout exactly when each of its steps is covered. */
  lemma {:induction false} RunNonNegIff(steps: seq<Step>)
    requires Legal(EMPTY, steps)
    ensures AlwaysNonNeg(EMPTY, steps) <==> CoveredRun(EMPTY, steps)
    decreases |steps|
  {
    if steps == [] {
      assert forall k :: !Guarded(EMPTY, k);
    } else {
      var n := |steps| - 1;
      RunNonNegIff(steps[..n]);
      RunKeeps(EMPTY, steps[..n]);
      if NonNeg(After(EMPTY, steps[..n])) {
        StepNonNegIff(After(EMPTY, steps[..n]), steps[n]);
      }
      assert AlwaysNonNeg(EMPTY, steps[..n]) ==> NonNeg(After(EMPTY, steps[..n]));
    }
  }

  /**
   * Over every safe run from the empty ledger no guarded available balance is ever negative. Nothing
   * is asked of settles and captures, nor of posts and reversals whose readings are honest.
   */
  lemma {:induction false} NeverNegative(steps: seq<Step>)
    requires Legal(EMPTY, steps) && SafeRun(EMPTY, steps)
    ensures AlwaysNonNeg(EMPTY, steps)
    decreases |steps|
  {
    if steps == [] {
      assert forall k :: !Guarded(EMPTY, k);
    } else {
      var n := |steps| - 1;
      var l := After(EMPTY, steps[..n]);
      NeverNegative(steps[..n]);
      RunKeeps(EMPTY, steps[..n]);
      SafeStepIsCovered(l, steps[n]);
      StepNonNegIff(l, steps[n]);
    }
  }

  /** Readings are honest, even exact, as long as nothing was pending behind any capture. */
  lemma QuietIsHonest(l: Ledger, k: Key)
    requires SnapshotsSettled(l)
    ensures CurrentBalance(l, k).available == AvailableOn(l.txns, k)
  {
    QueriesAreExact(l, k, 0);
    FoldedIsTrue(l.txns, k);
  }

  // ----- a cancel that overdraws

  /** A pending credit, spent, then cancelled. */
  function SpendAndCancel(k: Key, other: Key, ids: seq<nat>, amount: nat, at: int): seq<Step>
    requires |ids| == 2
  {
    [Post(ids[0], Transfer(other, k, amount).(state := Pending), at), Post(ids[1], Transfer(k, other, amount), at), Cancel(ids[0])]
  }

  lemma CreditAccepted(l: Ledger, k: Key, other: Key, amount: nat)
    requires Guarded(l, k) && Open(l, other)
    ensures Accepts(l, Transfer(other, k, amount).entries)
  {
    TransferFacts(other, k, amount);
    var es := Transfer(other, k, amount).entries;
    forall e | e in es ensures KeyAccepted(l, es, e.On()) {
      assert e.On() == k || e.On() == other;
    }
  }

  lemma CreditGoesThrough(l: Ledger, k: Key, other: Key, id: nat, amount: nat)
    requires Guarded(l, k) && Open(l, other) && IdFree(l.txns, id)
    ensures var s := Post(id, Transfer(other, k, amount).(state := Pending), l.clock);
      Enabled(l, s) && AvailableOn(Apply(l, s).txns, k) == AvailableOn(l.txns, k) + amount
  {
    TransferFacts(other, k, amount);
    CreditAccepted(l, k, other, amount);
    StepMoves(l, Post(id, Transfer(other, k, amount).(state := Pending), l.clock), k);
  }

  lemma SpendGoesThrough(l: Ledger, k: Key, other: Key, id: nat, amount: nat)
    requires Guarded(l, k) && Open(l, other) && IdFree(l.txns, id)
    requires l.snapshots == [] && AvailableOn(l.txns, k) >= amount
    ensures var s := Post(id, Transfer(k, other, amount), l.clock);
      Enabled(l, s) && AvailableOn(Apply(l, s).txns, k) == AvailableOn(l.txns, k) - amount
  {
    TransferFacts(k, other, amount);
    ReadingGap(l, k);
    TransferAccepted(l, k, other, amount);
    StepMoves(l, Post(id, Transfer(k, other, amount), l.clock), k);
  }

  lemma CancelCanOverdraw(l: Ledger, k: Key, other: Key, ids: seq<nat>, amount: nat)
    requires Guarded(l, k) && Open(l, other) && l.snapshots == [] && AvailableOn(l.txns, k) == 0
    requires |ids| == 2 && ids[0] != ids[1] && IdFree(l.txns, ids[0]) && IdFree(l.txns, ids[1])
    ensures var steps := SpendAndCancel(k, other, ids, amount, l.clock);
      && Legal(l, steps)
      && AvailableOn(After(l, steps).txns, k) == -(amount as int)
  {
    var steps := SpendAndCancel(k, other, ids, amount, l.clock);
    CreditGoesThrough(l, k, other, ids[0], amount);
    var l1 := Apply(l, steps[0]);
    SpendGoesThrough(l1, k, other, ids[1], amount);
    var l2 := Apply(l1, steps[1]);
    SpotIsFound(l2.txns, |l.txns|);
    TransferFacts(other, k, amount);
    StepMoves(l2, steps[2], k);
    OneMore(l, [], steps[0]);
    OneMore(l, [] + [steps[0]], steps[1]);
    OneMore(l, [] + [steps[0]] + [steps[1]], steps[2]);
    assert [] + [steps[0]] + [steps[1]] + [steps[2]] == steps;
  }

  /** Such a run from the empty ledger. */
  lemma OverdrawnRun(amount: nat) returns (steps: seq<Step>, k: Key)
    requires amount > 0
    ensures Legal(EMPTY, steps) && steps != [] && steps[|steps| - 1].Cancel?
    ensures Guarded(After(EMPTY, steps), k) && AvailableOn(After(EMPTY, steps).txns, k) == -(amount as int)
  {
    k := Key("a", "USD");
    var other := Key("b", "USD");
    var first, second := CreateAccount("a", map["USD" := false]), CreateAccount("b", map["USD" := true]);
    OneMore(EMPTY, [], first);
    OneMore(EMPTY, [] + [first], second);
    var l := After(EMPTY, [] + [first] + [second]);
    assert AvailableOn(l.txns, k) == 0 by { AvailableIsOneFold(l.txns, k); }
    CancelCanOverdraw(l, k, other, [0, 1], amount);
    var rest := SpendAndCancel(k, other, [0, 1], amount, l.clock);
    RunsCompose(EMPTY, [] + [first] + [second], rest);
    steps := [] + [first] + [second] + rest;
    RunEvolves(l, rest);
  }
}

/**
 * A committed batch against posting the same requests one by one: the rows are the same, and the
 * verdicts are related exactly as far as the pre-batch check allows.
 */
module BatchRefinement {
  import opened Base
  import opened Sums
  import opened Ledger
  import opened Balances
  import opened Machine
  import opened Evolution
  import opened NonNegative

  /** Request i alone, posted i microseconds after the base time. */
  function Posts(ids: seq<nat>, reqs: seq<Request>, base: int): seq<Step>
    requires |ids| == |reqs|
  {
    seq(|reqs|, i requires 0 <= i < |reqs| => Post(ids[i], reqs[i], base + i))
  }

  ghost predicate SnapshotsPast(l: Ledger) {
    forall s | s in l.snapshots :: s.at < l.clock
  }

  lemma {:induction false} SnapshotsArePast(steps: seq<Step>)
    requires Legal(EMPTY, steps)
    ensures SnapshotsPast(After(EMPTY, steps))
    decreases |steps|
  {
    if steps == [] {
    } else {
      var n := |steps| - 1;
      SnapshotsArePast(steps[..n]);
      StepEvolves(After(EMPTY, steps[..n]), steps[n]);
    }
  }

  /** A new post shows up in the reading with its full impact, whatever snapshot the reading starts from. */
  lemma PostMovesReading(l: Ledger, t: Txn, k: Key)
    requires SnapshotsPast(l) && t.postedAt >= l.clock && !t.state.Cancelled?
    ensures CurrentBalance(Insert(l, t), k).available == CurrentBalance(l, k).available + Impact(t.entries, k)
  {
    var start := StartTime(LatestSnapshot(l.snapshots, k, None));
    forall f: Entry -> int, state: TxnState, after: Option<int>
      ensures Sum(l.txns + [t], Pick(EntrySum(f), state, after, None))
           == Sum(l.txns, Pick(EntrySum(f), state, after, None)) + Pick(EntrySum(f), state, after, None)(t)
    {
      SumPush(l.txns, t, Pick(EntrySum(f), state, after, None));
    }
    SumPlus(t.entries, SignedOn(k), DebitOn(k), CreditOn(k));
    assert start.Some? ==> t.postedAt > start.value;
  }

  lemma {:induction false} BatchMovesReading(l: Ledger, ids: seq<nat>, reqs: seq<Request>, base: int, k: Key)
    requires SnapshotsPast(l) && base >= l.clock && |ids| == |reqs|
    requires InsertAll(l, reqs, ids, base).Some?
    requires forall i | 0 <= i < |reqs| :: !reqs[i].state.Cancelled?
    ensures CurrentBalance(InsertAll(l, reqs, ids, base).value, k).available
         == CurrentBalance(l, k).available + Sum(reqs, RequestImpact(k))
  {
    if reqs == [] {
    } else {
      var n := |reqs| - 1;
      BatchMovesReading(l, ids[..n], reqs[..n], base, k);
      PostMovesReading(InsertAll(l, reqs[..n], ids[..n], base).value, MakeTxn(ids[n], reqs[n], None, base + n), k);
    }
  }

  /** The ledger after a committed batch, ready for the next post of a sequence. */
  ghost function Sequenced(l: Ledger, ids: seq<nat>, reqs: seq<Request>, base: int): Ledger
    requires |ids| == |reqs| && InsertAll(l, reqs, ids, base).Some?
  {
    InsertAll(l, reqs, ids, base).value.(clock := if reqs == [] then l.clock else base + |reqs| - 1)
  }

  /** Posting one by one inserts the same rows. */
  lemma {:induction false} PostsInsert(l: Ledger, ids: seq<nat>, reqs: seq<Request>, base: int)
    requires |ids| == |reqs| && base >= l.clock && Legal(l, Posts(ids, reqs, base))
    ensures InsertAll(l, reqs, ids, base).Some?
    ensures After(l, Posts(ids, reqs, base)) == Sequenced(l, ids, reqs, base)
    ensures forall i | 0 <= i < |reqs| :: WellFormed(reqs[i])
  {
    if reqs == [] {
    } else {
      var n := |reqs| - 1;
      assert Posts(ids, reqs, base)[..n] == Posts(ids[..n], reqs[..n], base);
      PostsInsert(l, ids[..n], reqs[..n], base);
      forall i | 0 <= i < n ensures WellFormed(reqs[i]) {
        assert reqs[i] == reqs[..n][i];
      }
    }
  }

  /**
   * Requests that pass one by one pass as a batch exactly if there are not too many of them and each
   * is acceptable to the ledger as it was before all of them.
   */
  lemma SequenceIsABatchIff(l: Ledger, ids: seq<nat>, reqs: seq<Request>, base: int)
    requires |ids| == |reqs| && base >= l.clock && Legal(l, Posts(ids, reqs, base))
    ensures Enabled(l, Batch(ids, reqs, base)) <==>
      1 <= |reqs| <= 1000 && forall i | 0 <= i < |reqs| :: Accepts(l, reqs[i].entries)
    ensures Enabled(l, Batch(ids, reqs, base)) ==>
      After(l, Posts(ids, reqs, base)).txns == Apply(l, Batch(ids, reqs, base)).txns
  {
    PostsInsert(l, ids, reqs, base);
  }

  /** What the requests before have left covers every guarded key that r lowers. */
  ghost predicate FundedAfter(l: Ledger, earlier: seq<Request>, r: Request) {
    forall k | Guarded(l, k) && Impact(r.entries, k) < 0 ::
      CurrentBalance(l, k).available + Sum(earlier, RequestImpact(k)) + Impact(r.entries, k) >= 0
  }

  ghost predicate FundedInTurn(l: Ledger, reqs: seq<Request>) {
    forall i | 0 <= i < |reqs| :: FundedAfter(l, reqs[..i], reqs[i])
  }

  lemma FundedSplits(l: Ledger, reqs: seq<Request>)
    requires reqs != []
    ensures var n := |reqs| - 1;
      FundedInTurn(l, reqs) <==> FundedInTurn(l, reqs[..n]) && FundedAfter(l, reqs[..n], reqs[n])
  {
    var n := |reqs| - 1;
    forall i | 0 <= i < n ensures reqs[..n][..i] == reqs[..i] && reqs[..n][i] == reqs[i] {
    }
  }

  /** A request the ledger accepts is still acceptable in its turn exactly if it is funded then. */
  lemma AcceptedInTurnIff(l: Ledger, m: Ledger, earlier: seq<Request>, r: Request)
    requires m.accounts == l.accounts && Accepts(l, r.entries)
    requires forall k :: CurrentBalance(m, k).available == CurrentBalance(l, k).available + Sum(earlier, RequestImpact(k))
    ensures Accepts(m, r.entries) <==> FundedAfter(l, earlier, r)
  {
    if Accepts(m, r.entries) {
      forall k | Guarded(l, k) && Impact(r.entries, k) < 0
        ensures CurrentBalance(l, k).available + Sum(earlier, RequestImpact(k)) + Impact(r.entries, k) >= 0
      {
        GuardedImpact(m, r.entries, k);
      }
    }
    if FundedAfter(l, earlier, r) {
      forall e | e in r.entries ensures KeyAccepted(m, r.entries, e.On()) {
        assert KeyAccepted(l, r.entries, e.On());
      }
    }
  }

  lemma ReadingAfter(l: Ledger, ids: seq<nat>, reqs: seq<Request>, base: int)
    requires SnapshotsPast(l) && base >= l.clock && |ids| == |reqs|
    requires InsertAll(l, reqs, ids, base).Some? && forall i | 0 <= i < |reqs| :: WellFormed(reqs[i])
    ensures var m := Sequenced(l, ids, reqs, base);
      forall k :: CurrentBalance(m, k).available == CurrentBalance(l, k).available + Sum(reqs, RequestImpact(k))
  {
    forall k ensures CurrentBalance(Sequenced(l, ids, reqs, base), k).available
      == CurrentBalance(l, k).available + Sum(reqs, RequestImpact(k))
    {
      BatchMovesReading(l, ids, reqs, base, k);
    }
  }

  lemma {:induction false} PostsLegalIff(l: Ledger, ids: seq<nat>, reqs: seq<Request>, base: int)
    requires SnapshotsPast(l) && base >= l.clock && |ids| == |reqs|
    requires InsertAll(l, reqs, ids, base).Some?
    requires forall i | 0 <= i < |reqs| :: WellFormed(reqs[i]) && Accepts(l, reqs[i].entries)
    ensures Legal(l, Posts(ids, reqs, base)) <==> FundedInTurn(l, reqs)
  {
    if reqs == [] {
    } else {
      var n := |reqs| - 1;
      var front := Posts(ids[..n], reqs[..n], base);
      assert Posts(ids, reqs, base)[..n] == front;
      PostsLegalIff(l, ids[..n], reqs[..n], base);
      FundedSplits(l, reqs);
      if Legal(l, front) {
        PostsInsert(l, ids[..n], reqs[..n], base);
        ReadingAfter(l, ids[..n], reqs[..n], base);
        AcceptedInTurnIff(l, After(l, front), reqs[..n], reqs[n]);
      }
    }
  }

  /**
   * An accepted batch is a legal sequence of single posts, with the same rows, exactly if every
   * request is funded in its turn: what is available before the batch, moved by the requests before
   * it, covers each guarded key it lowers.
   */
  lemma BatchIsASequenceIff(l: Ledger, ids: seq<nat>, reqs: seq<Request>, base: int)
    requires SnapshotsPast(l) && Enabled(l, Batch(ids, reqs, base))
    ensures Legal(l, Posts(ids, reqs, base)) <==> FundedInTurn(l, reqs)
    ensures Legal(l, Posts(ids, reqs, base)) ==>
      After(l, Posts(ids, reqs, base)).txns == Apply(l, Batch(ids, reqs, base)).txns
  {
    PostsLegalIff(l, ids, reqs, base);
    if Legal(l, Posts(ids, reqs, base)) {
      PostsInsert(l, ids, reqs, base);
    }
  }

  lemma {:induction false} NoDebitNoFall(reqs: seq<Request>, k: Key)
    requires Debiting(reqs, k) == 0
    ensures Sum(reqs, RequestImpact(k)) >= 0
  {
    if reqs == [] {
    } else {
      NoDebitNoFall(reqs[..|reqs| - 1], k);
    }
  }

  lemma {:induction false} FewDebits(reqs: seq<Request>, k: Key, i: int)
    requires 0 <= i < |reqs| && Debiting(reqs, k) <= 1 && Impact(reqs[i].entries, k) < 0
    ensures Sum(reqs[..i], RequestImpact(k)) >= 0
  {
    var n := |reqs| - 1;
    if i == n {
      NoDebitNoFall(reqs[..n], k);
    } else {
      FewDebits(reqs[..n], k, i);
      assert reqs[..n][..i] == reqs[..i];
    }
  }

  /** So it is whenever no guarded key is lowered by more than one request. */
  lemma OneDebitPerKeyIsASequence(l: Ledger, ids: seq<nat>, reqs: seq<Request>, base: int)
    requires SnapshotsPast(l) && Enabled(l, Batch(ids, reqs, base))
    requires forall k | Guarded(l, k) :: Debiting(reqs, k) <= 1
    ensures Legal(l, Posts(ids, reqs, base))
  {
    forall i, k | 0 <= i < |reqs| && Guarded(l, k) && Impact(reqs[i].entries, k) < 0
      ensures CurrentBalance(l, k).available + Sum(reqs[..i], RequestImpact(k)) + Impact(reqs[i].entries, k) >= 0
    {
      assert Debiting(reqs, k) <= 1;
      FewDebits(reqs, k, i);
      GuardedImpact(l, reqs[i].entries, k);
    }
    BatchIsASequenceIff(l, ids, reqs, base);
  }

  lemma SpendAcceptedAfterPay(l: Ledger, k: Key, other: Key, id: nat, amount: nat)
    requires SnapshotsPast(l) && Guarded(l, k) && Open(l, other)
    requires 0 <= CurrentBalance(l, k).available
    ensures Accepts(Insert(l, MakeTxn(id, Transfer(other, k, amount), None, l.clock)), Transfer(k, other, amount).entries)
  {
    var t := MakeTxn(id, Transfer(other, k, amount), None, l.clock);
    TransferFacts(other, k, amount);
    PostMovesReading(l, t, k);
    TransferAccepted(Insert(l, t), k, other, amount);
  }

  /** Money paid in can be spent by the next single post. */
  lemma PayThenSpend(l: Ledger, k: Key, other: Key, ids: seq<nat>, amount: nat)
    requires SnapshotsPast(l) && Guarded(l, k) && Open(l, other)
    requires |ids| == 2 && ids[0] != ids[1] && IdFree(l.txns, ids[0]) && IdFree(l.txns, ids[1])
    requires 0 <= CurrentBalance(l, k).available
    ensures Legal(l, Posts(ids, [Transfer(other, k, amount), Transfer(k, other, amount)], l.clock))
  {
    var pay, spend := Transfer(other, k, amount), Transfer(k, other, amount);
    var first, second := Post(ids[0], pay, l.clock), Post(ids[1], spend, l.clock + 1);
    assert WellFormed(pay) && WellFormed(spend) by {
      TransferFacts(other, k, amount);
      TransferFacts(k, other, amount);
    }
    CreditAccepted(l, k, other, amount);
    OneMore(l, [], first);
    SpendAcceptedAfterPay(l, k, other, ids[0], amount);
    assert Apply(l, first) == Insert(l, MakeTxn(ids[0], pay, None, l.clock));
    OneMore(l, [] + [first], second);
    assert Posts(ids, [pay, spend], l.clock) == [] + [first] + [second];
  }

  /**
   * The converse fails: the batch check does not see earlier requests of the same batch. Money moved
   * in and straight out again passes one by one and fails as a batch whenever the balance alone is short.
   */
  lemma SequenceNeedNotBeABatch(l: Ledger, k: Key, other: Key, ids: seq<nat>, amount: nat)
    requires SnapshotsPast(l) && Guarded(l, k) && Open(l, other)
    requires |ids| == 2 && ids[0] != ids[1] && IdFree(l.txns, ids[0]) && IdFree(l.txns, ids[1])
    requires 0 <= CurrentBalance(l, k).available < amount
    ensures var reqs := [Transfer(other, k, amount), Transfer(k, other, amount)];
      && Legal(l, Posts(ids, reqs, l.clock))
      && !Enabled(l, Batch(ids, reqs, l.clock))
  {
    PayThenSpend(l, k, other, ids, amount);
    SpendIsShort(l, k, other, amount);
    assert [Transfer(other, k, amount), Transfer(k, other, amount)][1] == Transfer(k, other, amount);
  }

  lemma SpendIsShort(l: Ledger, k: Key, other: Key, amount: nat)
    requires Guarded(l, k) && k != other && amount > 0 && CurrentBalance(l, k).available < amount
    ensures !Accepts(l, Transfer(k, other, amount).entries)
  {
    TransferFacts(k, other, amount);
    var es := Transfer(k, other, amount).entries;
    assert es[0].On() == k && !KeyAccepted(l, es, k);
  }
}

/**
 * Append-only evolution: what every step, and so every run, leaves untouched in rows already written.
 */
module Evolution {
  import opened Base
  import opened Ledger
  import opened Machine

  /** u is a later version of the row t. */
  ghost predicate Descends(t: Txn, u: Txn) {
    && u.id == t.id && u.key == t.key && u.postedAt == t.postedAt
    && u.reverses == t.reverses && u.entries == t.entries
    && (!t.state.Pending? ==> u.state == t.state && u.settledAt == t.settledAt)
    && (t.reversedBy.Some? ==> u.reversedBy == t.reversedBy)
  }

  ghost predicate Evolves(l: Ledger, m: Ledger) {
    && |l.txns| <= |m.txns|
    && l.clock <= m.clock
    && l.snapshots <= m.snapshots
    && (forall a | a in l.accounts :: a in m.accounts && m.accounts[a] == l.accounts[a])
    && (forall i | 0 <= i < |l.txns| :: Descends(l.txns[i], m.txns[i]))
    && (forall i | |l.txns| <= i < |m.txns| :: m.txns[i].postedAt >= l.clock)
  }

  lemma EvolvesTransitive(l: Ledger, m: Ledger, n: Ledger)
    requires Evolves(l, m) && Evolves(m, n)
    ensures Evolves(l, n)
  {
    forall i | 0 <= i < |l.txns| ensures Descends(l.txns[i], n.txns[i]) {
      assert Descends(l.txns[i], m.txns[i]) && Descends(m.txns[i], n.txns[i]);
    }
    forall i | |l.txns| <= i < |n.txns| ensures n.txns[i].postedAt >= l.clock {
      if i < |m.txns| {
        assert Descends(m.txns[i], n.txns[i]);
      }
    }
  }

  /** The rows a batch adds, in order. */
  lemma {:induction false} BatchAppends(l: Ledger, reqs: seq<Request>, ids: seq<nat>, base: int)
    requires |ids| == |reqs|
    requires InsertAll(l, reqs, ids, base).Some?
    ensures InsertAll(l, reqs, ids, base).value.txns
         == l.txns + seq(|reqs|, i requires 0 <= i < |reqs| => MakeTxn(ids[i], reqs[i], None, base + i))
  {
    if reqs == [] {
    } else {
      var n := |reqs| - 1;
      BatchAppends(l, reqs[..n], ids[..n], base);
    }
  }

  lemma RowsOnlyAppended(l: Ledger, m: Ledger)
    requires m.accounts == l.accounts && m.snapshots == l.snapshots && l.clock <= m.clock
    requires l.txns <= m.txns && forall i | |l.txns| <= i < |m.txns| :: m.txns[i].postedAt >= l.clock
    ensures Evolves(l, m)
  {
    forall i | 0 <= i < |l.txns| ensures Descends(l.txns[i], m.txns[i]) {
      assert m.txns[i] == l.txns[i];
    }
  }

  lemma RowReplaced(l: Ledger, i: int, u: Txn)
    requires 0 <= i < |l.txns| && Descends(l.txns[i], u)
    ensures Evolves(l, Replace(l, i, u))
  {
  }

  lemma ReversingEvolves(l: Ledger, s: Step)
    requires Enabled(l, s) && s.Reverse?
    ensures Evolves(l, Apply(l, s))
  {
    var i := Position(l.txns, s.target);
    var inserted := Insert(l, MakeTxn(s.id, ReversalOf(s.fetched, s.key, s.state), Some(s.target), s.at)).(clock := s.at);
    RowsOnlyAppended(l, inserted);
    RowReplaced(inserted, i, l.txns[i].(reversedBy := Some(s.id)));
    EvolvesTransitive(l, inserted, Apply(l, s));
  }

  lemma StepEvolves(l: Ledger, s: Step)
    requires Enabled(l, s)
    ensures Evolves(l, Apply(l, s))
  {
    match s
    case CreateAccount(_, _) =>
    case Post(_, _, _) => RowsOnlyAppended(l, Apply(l, s));
    case Batch(ids, reqs, base) =>
      BatchAppends(l, reqs, ids, base);
      RowsOnlyAppended(l, Apply(l, s));
    case Settle(target, at) =>
      var i := Position(l.txns, target);
      RowReplaced(l, i, Settling(l, i, at).txns[i]);
    case Cancel(target) =>
      var i := Position(l.txns, target);
      RowReplaced(l, i, Cancelling(l, i).txns[i]);
    case Reverse(_, _, _, _, _, _) => ReversingEvolves(l, s);
    case Capture(_, _) =>
  }

  lemma {:induction false} RunEvolves(l: Ledger, steps: seq<Step>)
    requires Legal(l, steps)
    ensures Evolves(l, After(l, steps))
    decreases |steps|
  {
    if steps == [] {
    } else {
      var n := |steps| - 1;
      RunEvolves(l, steps[..n]);
      StepEvolves(After(l, steps[..n]), steps[n]);
      EvolvesTransitive(l, After(l, steps[..n]), After(l, steps));
    }
  }

  /** A transaction that has left the pending state never changes again, but for its reversal link. */
  lemma FinalIsForever(l: Ledger, steps: seq<Step>, i: int)
    requires Legal(l, steps)
    requires 0 <= i < |l.txns| && !l.txns[i].state.Pending?
    ensures i < |After(l, steps).txns|
    ensures After(l, steps).txns[i].(reversedBy := l.txns[i].reversedBy) == l.txns[i]
    ensures l.txns[i].reversedBy.Some? ==> After(l, steps).txns[i] == l.txns[i]
  {
    RunEvolves(l, steps);
    assert Descends(l.txns[i], After(l, steps).txns[i]);
  }

  // ----- keys, once used

  /** A committed batch used keys that were free, each once. */
  lemma {:induction false} BatchKeysFree(l: Ledger, reqs: seq<Request>, ids: seq<nat>, base: int)
    requires |ids| == |reqs| && InsertAll(l, reqs, ids, base).Some?
    ensures forall i | 0 <= i < |reqs| :: CanInsert(l.txns, ids[i], reqs[i].key)
    ensures forall i, j | 0 <= i < j < |reqs| :: ids[i] != ids[j] && (reqs[i].key.Some? ==> reqs[i].key != reqs[j].key)
  {
    if reqs == [] {
    } else {
      var n := |reqs| - 1;
      BatchKeysFree(l, reqs[..n], ids[..n], base);
      BatchAppends(l, reqs[..n], ids[..n], base);
      var front := InsertAll(l, reqs[..n], ids[..n], base).value.txns;
      assert forall i | 0 <= i < |l.txns| :: front[i] == l.txns[i];
      forall i | 0 <= i < n ensures ids[i] != ids[n] && (reqs[i].key.Some? ==> reqs[i].key != reqs[n].key) {
        assert front[|l.txns| + i] == MakeTxn(ids[i], reqs[i], None, base + i);
      }
    }
  }

  /** The step would write a row that carries this key. */
  ghost predicate Brings(s: Step, key: Option<string>) {
    match s
    case Post(_, r, _) => r.key == key
    case Batch(_, reqs, _) => exists i | 0 <= i < |reqs| :: reqs[i].key == key
    case Reverse(_, _, _, k, _, _) => k == key
    case _ => false
  }

  /**
   * A key some row carries is spent for good: whatever happens, no post, batch or reversal with it is
   * ever enabled again, also long after its key record has expired.
   */
  lemma SpentKeysStaySpent(l: Ledger, steps: seq<Step>, key: Option<string>, s: Step)
    requires Legal(l, steps) && !KeyFree(l.txns, key) && Brings(s, key)
    ensures !KeyFree(After(l, steps).txns, key)
    ensures !Enabled(After(l, steps), s)
  {
    var m := After(l, steps);
    RunEvolves(l, steps);
    SpentKeyEvolves(l, m, key);
    if Enabled(m, s) && s.Batch? {
      BatchKeysFree(m, s.requests, s.ids, s.base);
    }
  }

  lemma SpentKeyEvolves(l: Ledger, m: Ledger, key: Option<string>)
    requires Evolves(l, m) && !KeyFree(l.txns, key)
    ensures !KeyFree(m.txns, key)
  {
    var i :| 0 <= i < |l.txns| && l.txns[i].key == key;
    assert Descends(l.txns[i], m.txns[i]);
  }
}

/**
 * The structural invariant of the ledger: unique ids and idempotency keys, sound rows, and reversal
 * links that form a matching. It holds in every state any run reaches from the empty ledger.
 */
module Structure {
  import opened Base
  import opened Ledger
  import opened Machine

  ghost predicate DistinctIds(txns: seq<Txn>) {
    forall i, j | 0 <= i < j < |txns| :: txns[i].id != txns[j].id
  }

  ghost predicate DistinctKeys(txns: seq<Txn>) {
    forall i, j | 0 <= i < j < |txns| && txns[i].key.Some? :: txns[i].key != txns[j].key
  }

  ghost predicate RowSound(accounts: map<string, map<string, bool>>, t: Txn) {
    && t.entries != []
    && Balanced(t.entries)
    && (t.settledAt.Some? <==> t.state.Settled?)
    && !(t.reversedBy.Some? && t.reverses.Some?)
    && (t.reversedBy.Some? ==> t.state.Settled?)
    && EntriesSupported(accounts, t.entries)
  }

  ghost predicate EntriesSupported(accounts: map<string, map<string, bool>>, es: seq<Entry>) {
    forall e | e in es :: e.account in accounts && e.currency in accounts[e.account]
  }

  ghost predicate RowsSound(l: Ledger) {
    forall i | 0 <= i < |l.txns| :: RowSound(l.accounts, l.txns[i])
  }

  /** Row j is the reversal of row i, and both rows say so. */
  ghost predicate Pair(txns: seq<Txn>, i: int, j: int)
    requires 0 <= i < |txns| && 0 <= j < |txns|
  {
    && txns[i].reversedBy == Some(txns[j].id)
    && txns[j].reverses == Some(txns[i].id)
    && SameEntries(Flipped(txns[i].entries), txns[j].entries)
  }

  ghost predicate HasReversal(txns: seq<Txn>, i: int)
    requires 0 <= i < |txns|
  {
    exists j | 0 <= j < |txns| :: Pair(txns, i, j)
  }

  ghost predicate HasOriginal(txns: seq<Txn>, j: int)
    requires 0 <= j < |txns|
  {
    exists i | 0 <= i < |txns| :: Pair(txns, i, j)
  }

  ghost predicate LinkSound(txns: seq<Txn>, i: int)
    requires 0 <= i < |txns|
  {
    && (txns[i].reversedBy.Some? ==> HasReversal(txns, i))
    && (txns[i].reverses.Some? ==> HasOriginal(txns, i))
  }

  ghost predicate Linked(txns: seq<Txn>) {
    forall i | 0 <= i < |txns| :: LinkSound(txns, i)
  }

  ghost predicate Inv(l: Ledger) {
    DistinctIds(l.txns) && DistinctKeys(l.txns) && RowsSound(l) && Linked(l.txns)
  }

  // ----- how row changes affect the links

  /** Changes that keep ids, links and entries of the rows already there keep their pairs. */
  ghost predicate KeepsPairs(a: seq<Txn>, b: seq<Txn>) {
    && |a| <= |b|
    && forall i | 0 <= i < |a| ::
         && b[i].id == a[i].id && b[i].entries == a[i].entries && b[i].reverses == a[i].reverses
         && (a[i].reversedBy.Some? ==> b[i].reversedBy == a[i].reversedBy)
  }

  lemma PairsKept(a: seq<Txn>, b: seq<Txn>, i: int)
    requires KeepsPairs(a, b) && 0 <= i < |a| && LinkSound(a, i)
    ensures b[i].reversedBy == a[i].reversedBy ==> LinkSound(b, i)
  {
    if a[i].reversedBy.Some? {
      var j :| 0 <= j < |a| && Pair(a, i, j);
      assert Pair(b, i, j);
    }
    if a[i].reverses.Some? {
      var j :| 0 <= j < |a| && Pair(a, j, i);
      assert Pair(b, j, i);
    }
  }

  lemma InsertKeeps(l: Ledger, id: nat, r: Request, at: int)
    requires Inv(l) && CanInsert(l.txns, id, r.key)
    requires WellFormed(r) && EntriesSupported(l.accounts, r.entries)
    ensures Inv(Insert(l, MakeTxn(id, r, None, at)))
  {
    var now := Insert(l, MakeTxn(id, r, None, at)).txns;
    forall i | 0 <= i < |now| ensures LinkSound(now, i) {
      if i < |l.txns| {
        assert LinkSound(l.txns, i);
        PairsKept(l.txns, now, i);
      }
    }
  }

  /** Settling or cancelling a pending row keeps the invariant. */
  lemma ReplaceKeeps(l: Ledger, i: int, u: Txn)
    requires Inv(l) && 0 <= i < |l.txns|
    requires u == l.txns[i].(state := u.state, settledAt := u.settledAt)
    requires l.txns[i].state.Pending? && (u.settledAt.Some? <==> u.state.Settled?)
    ensures Inv(Replace(l, i, u))
  {
    var now := Replace(l, i, u).txns;
    assert RowSound(l.accounts, l.txns[i]);
    forall j | 0 <= j < |now| ensures LinkSound(now, j) {
      assert LinkSound(l.txns, j);
      PairsKept(l.txns, now, j);
    }
  }

  lemma AcceptedIsSupported(l: Ledger, es: seq<Entry>)
    requires Accepts(l, es)
    ensures EntriesSupported(l.accounts, es)
  {
    forall e | e in es ensures e.account in l.accounts && e.currency in l.accounts[e.account] {
      assert KeyAccepted(l, es, e.On());
    }
  }

  lemma ReverseKeeps(l: Ledger, i: int, fetched: seq<Entry>, id: nat, key: Option<string>, state: TxnState, at: int)
    requires Inv(l) && 0 <= i < |l.txns| && Reversible(l.txns[i])
    requires SameEntries(l.txns[i].entries, fetched) && Postable(l, id, ReversalOf(fetched, key, state))
    ensures Inv(Reversing(l, i, fetched, id, key, state, at))
  {
    var m := Reversing(l, i, fetched, id, key, state, at);
    var now, n := m.txns, |l.txns|;
    assert RowSound(l.accounts, l.txns[i]);
    AcceptedIsSupported(l, Flipped(fetched));
    FlippedSame(l.txns[i].entries, fetched);
    assert Pair(now, i, n);
    forall j | 0 <= j < |now| ensures LinkSound(now, j) {
      if j < n && j != i {
        assert LinkSound(l.txns, j);
        PairsKept(l.txns, now, j);
      }
    }
    forall j | 0 <= j < |now| ensures RowSound(m.accounts, now[j]) {
    }
  }

  lemma {:induction false} BatchKeeps(l: Ledger, reqs: seq<Request>, ids: seq<nat>, base: int)
    requires Inv(l) && |ids| == |reqs| && InsertAll(l, reqs, ids, base).Some?
    requires forall i | 0 <= i < |reqs| :: WellFormed(reqs[i]) && Accepts(l, reqs[i].entries)
    ensures Inv(InsertAll(l, reqs, ids, base).value)
  {
    if reqs == [] {
    } else {
      var n := |reqs| - 1;
      BatchKeeps(l, reqs[..n], ids[..n], base);
      AcceptedIsSupported(l, reqs[n].entries);
      InsertKeeps(InsertAll(l, reqs[..n], ids[..n], base).value, ids[n], reqs[n], base + n);
    }
  }

  /** The invariant speaks only of rows and accounts, and accounts may be added. */
  lemma InvExtends(l: Ledger, m: Ledger)
    requires Inv(l) && m.txns == l.txns
    requires forall a | a in l.accounts :: a in m.accounts && m.accounts[a] == l.accounts[a]
    ensures Inv(m)
  {
    forall i | 0 <= i < |m.txns| ensures RowSound(m.accounts, m.txns[i]) {
      assert RowSound(l.accounts, l.txns[i]);
    }
  }

  lemma StepKeeps(l: Ledger, s: Step)
    requires Inv(l) && Enabled(l, s)
    ensures Inv(Apply(l, s))
  {
    match s
    case CreateAccount(a, policy) => InvExtends(l, Apply(l, s));
    case Post(id, r, at) =>
      AcceptedIsSupported(l, r.entries);
      InsertKeeps(l, id, r, at);
      InvExtends(Insert(l, MakeTxn(id, r, None, at)), Apply(l, s));
    case Batch(ids, rs, base) =>
      BatchKeeps(l, rs, ids, base);
      InvExtends(InsertAll(l, rs, ids, base).value, Apply(l, s));
    case Settle(target, at) =>
      var i := Position(l.txns, target);
      ReplaceKeeps(l, i, l.txns[i].(state := Settled, settledAt := Some(at)));
    case Cancel(target) =>
      var i := Position(l.txns, target);
      assert RowSound(l.accounts, l.txns[i]);
      ReplaceKeeps(l, i, l.txns[i].(state := Cancelled));
    case Reverse(target, fetched, id, key, state, at) =>
      var i := Position(l.txns, target);
      ReverseKeeps(l, i, fetched, id, key, state, at);
      InvExtends(Reversing(l, i, fetched, id, key, state, at), Apply(l, s));
    case Capture(k, at) => InvExtends(l, Apply(l, s));
  }

  lemma {:induction false} RunKeeps(l: Ledger, steps: seq<Step>)
    requires Inv(l) && Legal(l, steps)
    ensures Inv(After(l, steps))
    decreases |steps|
  {
    if steps == [] {
    } else {
      var n := |steps| - 1;
      RunKeeps(l, steps[..n]);
      StepKeeps(After(l, steps[..n]), steps[n]);
    }
  }

  lemma ReachableIsSound(l: Ledger)
    requires l in REACHABLE
    ensures Inv(l)
  {
    var steps := RunTo(l);
    RunKeeps(EMPTY, steps);
  }

  /** A link written on one row is a pair. */
  lemma LinkIsPair(txns: seq<Txn>, i: int, j: int)
    requires DistinctIds(txns) && Linked(txns)
    requires 0 <= i < |txns| && 0 <= j < |txns|
    ensures txns[i].reversedBy == Some(txns[j].id) <==> Pair(txns, i, j)
    ensures txns[j].reverses == Some(txns[i].id) <==> Pair(txns, i, j)
  {
    assert LinkSound(txns, i) && LinkSound(txns, j);
    if txns[i].reversedBy == Some(txns[j].id) {
      var j' :| 0 <= j' < |txns| && Pair(txns, i, j');
      assert j' == j;
    }
    if txns[j].reverses == Some(txns[i].id) {
      var i' :| 0 <= i' < |txns| && Pair(txns, i', j);
      assert i' == i;
    }
  }

  /**
   * In every reachable ledger the reversal links are a matching: reversed_by and reverses agree, no
   * dangling link exists, no transaction has both, an original is settled, and the reversal's
   * entries are the original's with the sides exchanged.
   */
  lemma LinksFormAMatching(steps: seq<Step>, i: int)
    requires Legal(EMPTY, steps)
    requires 0 <= i < |After(EMPTY, steps).txns|
    ensures var txns := After(EMPTY, steps).txns;
      && (forall j | 0 <= j < |txns| ::
            txns[i].reversedBy == Some(txns[j].id) <==> txns[j].reverses == Some(txns[i].id))
      && (forall j | 0 <= j < |txns| && txns[i].reversedBy == Some(txns[j].id) ::
            SameEntries(Flipped(txns[i].entries), txns[j].entries))
      && (txns[i].reversedBy.Some? ==>
            && txns[i].state.Settled?
            && txns[i].reverses.None?
            && exists j | 0 <= j < |txns| :: txns[j].id == txns[i].reversedBy.value)
      && (txns[i].reverses.Some? ==> exists j | 0 <= j < |txns| :: txns[j].id == txns[i].reverses.value)
  {
    RunKeeps(EMPTY, steps);
    var l := After(EMPTY, steps);
    var txns := l.txns;
    forall j | 0 <= j < |txns|
      ensures txns[i].reversedBy == Some(txns[j].id) <==> txns[j].reverses == Some(txns[i].id)
      ensures txns[i].reversedBy == Some(txns[j].id) ==> SameEntries(Flipped(txns[i].entries), txns[j].entries)
    {
      LinkIsPair(txns, i, j);
    }
    assert RowSound(l.accounts, txns[i]) && LinkSound(txns, i);
    if txns[i].reversedBy.Some? {
      var j :| 0 <= j < |txns| && Pair(txns, i, j);
      assert txns[j].id == txns[i].reversedBy.value;
    }
    if txns[i].reverses.Some? {
      var j :| 0 <= j < |txns| && Pair(txns, j, i);
      assert txns[j].id == txns[i].reverses.value;
    }
  }
}

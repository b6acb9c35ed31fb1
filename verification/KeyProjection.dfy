/**
 * The ledger seen by the idempotency protocol: which transaction carries which key. Every step of the
 * ledger machine is, seen so, either no change or a commit the protocol allows.
 */
module KeyProjection {
  import opened Base
  import opened Ledger
  import opened Machine
  import opened Evolution
  import opened Structure
  import P = Idempotency

  /** The service checks and records a key only if there is one and it is not empty. */
  predicate Keyed(key: Option<string>) { key.Some? && key.value != "" }

  /** Keyed rows, by id. */
  function KeyedRows(txns: seq<Txn>): map<nat, string> {
    if txns == [] then map[]
    else
      var t := txns[|txns| - 1];
      var front := KeyedRows(txns[..|txns| - 1]);
      if Keyed(t.key) then front[t.id := t.key.value] else front
  }

  lemma {:induction false} KeyedRowsAre(txns: seq<Txn>)
    requires DistinctIds(txns)
    ensures forall i | 0 <= i < |txns| && Keyed(txns[i].key) ::
      txns[i].id in KeyedRows(txns) && KeyedRows(txns)[txns[i].id] == txns[i].key.value
    ensures forall id | id in KeyedRows(txns) ::
      exists i | 0 <= i < |txns| :: txns[i].id == id && Keyed(txns[i].key) && txns[i].key.value == KeyedRows(txns)[id]
  {
    if txns == [] {
    } else {
      var n := |txns| - 1;
      KeyedRowsAre(txns[..n]);
      forall id | id in KeyedRows(txns)
        ensures exists i | 0 <= i < |txns| :: txns[i].id == id && Keyed(txns[i].key) && txns[i].key.value == KeyedRows(txns)[id]
      {
        if id in KeyedRows(txns[..n]) && !(Keyed(txns[n].key) && txns[n].id == id) {
          var front := txns[..n];
          var i :| 0 <= i < n && front[i].id == id && Keyed(front[i].key) && front[i].key.value == KeyedRows(front)[id];
          assert txns[i] == txns[..n][i];
        } else {
          assert txns[n].id == id;
        }
      }
    }
  }

  /** The UNIQUE column and the protocol's guard agree on every key the protocol knows. */
  lemma GuardsAgree(txns: seq<Txn>, key: Option<string>)
    requires DistinctIds(txns) && Keyed(key)
    ensures KeyFree(txns, key) <==> P.KeyUnused(KeyedRows(txns), key.value)
  {
    KeyedRowsAre(txns);
  }

  /** Updates of existing rows are invisible. */
  lemma {:induction false} UpdatesAreInvisible(a: seq<Txn>, b: seq<Txn>)
    requires |a| == |b| && forall i | 0 <= i < |a| :: b[i].id == a[i].id && b[i].key == a[i].key
    ensures KeyedRows(b) == KeyedRows(a)
  {
    if a == [] {
    } else {
      UpdatesAreInvisible(a[..|a| - 1], b[..|b| - 1]);
    }
  }

  // ----- what a step commits

  function KeyedIds(ids: seq<nat>, reqs: seq<Request>): seq<nat>
    requires |ids| == |reqs|
  {
    if reqs == [] then []
    else
      var n := |reqs| - 1;
      KeyedIds(ids[..n], reqs[..n]) + if Keyed(reqs[n].key) then [ids[n]] else []
  }

  function KeysOf(reqs: seq<Request>): seq<string> {
    if reqs == [] then []
    else
      var n := |reqs| - 1;
      KeysOf(reqs[..n]) + if Keyed(reqs[n].key) then [reqs[n].key.value] else []
  }

  /** The requests a step inserts, with their ids. */
  function Inserts(s: Step): (seq<nat>, seq<Request>) {
    match s
    case Post(id, r, _) => ([id], [r])
    case Batch(ids, reqs, _) => (ids, reqs)
    case Reverse(_, fetched, id, key, state, _) => ([id], [ReversalOf(fetched, key, state)])
    case _ => ([], [])
  }

  lemma {:induction false} KeyedAreAmong(ids: seq<nat>, reqs: seq<Request>)
    requires |ids| == |reqs|
    ensures |KeyedIds(ids, reqs)| == |KeysOf(reqs)|
    ensures forall id | id in KeyedIds(ids, reqs) :: id in ids
    ensures forall k | k in KeysOf(reqs) :: exists i | 0 <= i < |reqs| :: reqs[i].key == Some(k)
  {
    if reqs == [] {
    } else {
      var n := |reqs| - 1;
      KeyedAreAmong(ids[..n], reqs[..n]);
      forall k | k in KeysOf(reqs) ensures exists i | 0 <= i < |reqs| :: reqs[i].key == Some(k) {
        if k in KeysOf(reqs[..n]) {
          var i :| 0 <= i < n && reqs[..n][i].key == Some(k);
          assert reqs[i].key == Some(k);
        } else {
          assert reqs[n].key == Some(k);
        }
      }
    }
  }

  lemma {:induction false} WithKeysAppend(txns: map<nat, string>, ids: seq<nat>, keys: seq<string>, id: nat, k: string)
    requires |ids| == |keys|
    ensures P.WithKeys(txns, ids + [id], keys + [k]) == P.WithKeys(txns, ids, keys)[id := k]
    decreases |ids|
  {
    if ids == [] {
      assert P.WithKeys(txns, [id], [k]) == P.WithKeys(txns[id := k], [], []);
      assert ids + [id] == [id] && keys + [k] == [k];
    } else {
      assert (ids + [id])[1..] == ids[1..] + [id] && (keys + [k])[1..] == keys[1..] + [k];
      WithKeysAppend(txns[ids[0] := keys[0]], ids[1..], keys[1..], id, k);
    }
  }

  lemma {:induction false} InsertsCommit(l: Ledger, ids: seq<nat>, reqs: seq<Request>, base: int)
    requires |ids| == |reqs| && InsertAll(l, reqs, ids, base).Some?
    ensures |KeyedIds(ids, reqs)| == |KeysOf(reqs)|
    ensures KeyedRows(InsertAll(l, reqs, ids, base).value.txns) == P.WithKeys(KeyedRows(l.txns), KeyedIds(ids, reqs), KeysOf(reqs))
  {
    if reqs == [] {
    } else {
      var n := |reqs| - 1;
      InsertsCommit(l, ids[..n], reqs[..n], base);
      var front, all := InsertAll(l, reqs[..n], ids[..n], base).value.txns, InsertAll(l, reqs, ids, base).value.txns;
      assert all[..|all| - 1] == front && all[|all| - 1].key == reqs[n].key && all[|all| - 1].id == ids[n];
      if Keyed(reqs[n].key) {
        assert KeyedRows(all) == KeyedRows(front)[ids[n] := reqs[n].key.value];
        WithKeysAppend(KeyedRows(l.txns), KeyedIds(ids[..n], reqs[..n]), KeysOf(reqs[..n]), ids[n], reqs[n].key.value);
      } else {
        assert KeyedIds(ids, reqs) == KeyedIds(ids[..n], reqs[..n]) && KeysOf(reqs) == KeysOf(reqs[..n]);
      }
    }
  }

  lemma OneMoreAllowed(txns: map<nat, string>, ids: seq<nat>, keys: seq<string>, id: nat, k: string)
    requires P.CommitAllowed(txns, ids, keys)
    requires id !in txns && id !in ids && P.KeyUnused(txns, k) && k !in keys
    ensures P.CommitAllowed(txns, ids + [id], keys + [k])
  {
    forall j | 0 <= j < |ids| + 1 ensures P.KeyUnused(txns, (keys + [k])[j]) {
      if j < |ids| {
        assert P.KeyUnused(txns, keys[j]);
      }
    }
  }

  lemma {:induction false} InsertsAllowed(l: Ledger, ids: seq<nat>, reqs: seq<Request>, base: int)
    requires DistinctIds(l.txns) && |ids| == |reqs| && InsertAll(l, reqs, ids, base).Some?
    ensures P.CommitAllowed(KeyedRows(l.txns), KeyedIds(ids, reqs), KeysOf(reqs))
  {
    if reqs == [] {
    } else {
      var n := |reqs| - 1;
      InsertsAllowed(l, ids[..n], reqs[..n], base);
      if Keyed(reqs[n].key) {
        BatchKeysFree(l, reqs, ids, base);
        KeyedAreAmong(ids[..n], reqs[..n]);
        KeyedRowsAre(l.txns);
        GuardsAgree(l.txns, reqs[n].key);
        OneMoreAllowed(KeyedRows(l.txns), KeyedIds(ids[..n], reqs[..n]), KeysOf(reqs[..n]), ids[n], reqs[n].key.value);
      }
    }
  }

  lemma SingleInsert(l: Ledger, id: nat, r: Request, at: int)
    requires CanInsert(l.txns, id, r.key)
    ensures InsertAll(l, [r], [id], at) == Some(Insert(l, MakeTxn(id, r, None, at)))
  {
    assert [r][..0] == [] && [id][..0] == [];
    assert InsertAll(l, [], [], at) == Some(l);
  }

  lemma InsertsProject(l: Ledger, ids: seq<nat>, reqs: seq<Request>, base: int, m: Ledger)
    requires DistinctIds(l.txns) && |ids| == |reqs| && InsertAll(l, reqs, ids, base).Some?
    requires var now := InsertAll(l, reqs, ids, base).value.txns;
      |m.txns| == |now| && forall i | 0 <= i < |now| :: m.txns[i].id == now[i].id && m.txns[i].key == now[i].key
    ensures P.CommitAllowed(KeyedRows(l.txns), KeyedIds(ids, reqs), KeysOf(reqs))
    ensures KeyedRows(m.txns) == P.WithKeys(KeyedRows(l.txns), KeyedIds(ids, reqs), KeysOf(reqs))
  {
    InsertsCommit(l, ids, reqs, base);
    InsertsAllowed(l, ids, reqs, base);
    UpdatesAreInvisible(InsertAll(l, reqs, ids, base).value.txns, m.txns);
  }

  /**
   * Every step of the ledger, projected on keys, is a commit the protocol's guard allows, of exactly
   * the keyed rows it inserts; settling, cancelling and the like are no change at all.
   */
  lemma StepProjects(l: Ledger, s: Step)
    requires Inv(l) && Enabled(l, s)
    ensures var ids, reqs := Inserts(s).0, Inserts(s).1;
      && |ids| == |reqs|
      && P.CommitAllowed(KeyedRows(l.txns), KeyedIds(ids, reqs), KeysOf(reqs))
      && KeyedRows(Apply(l, s).txns) == P.WithKeys(KeyedRows(l.txns), KeyedIds(ids, reqs), KeysOf(reqs))
  {
    match s
    case Post(id, r, at) =>
      SingleInsert(l, id, r, at);
      InsertsProject(l, [id], [r], at, Apply(l, s));
    case Batch(ids, reqs, base) => InsertsProject(l, ids, reqs, base, Apply(l, s));
    case Reverse(_, fetched, id, key, state, at) =>
      SingleInsert(l, id, ReversalOf(fetched, key, state), at);
      InsertsProject(l, [id], [ReversalOf(fetched, key, state)], at, Apply(l, s));
    case _ => UpdatesAreInvisible(l.txns, Apply(l, s).txns);
  }
}

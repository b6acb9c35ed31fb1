/**
 * The database as the service uses it: the ledger rows behind the repository's writes, and the events
 * published so far.
 */
module Store {
  import opened Base
  import opened Ledger
  import opened Machine
  import opened Retry
  import opened Structure

  const UNIQUE_VIOLATION := Failure(Some("23505"))

  function WithEntries(l: Ledger, p: int, entries: seq<Entry>): Ledger
    requires 0 <= p < |l.txns|
  {
    Replace(l, p, l.txns[p].(entries := entries))
  }

  /** What no update touches: which transaction it is, when and with what it was posted. */
  ghost predicate SameTransaction(t: Txn, u: Txn) {
    u.id == t.id && u.key == t.key && u.postedAt == t.postedAt && u.reverses == t.reverses && u.entries == t.entries
  }

  /** UPDATE ... WHERE transaction_id = id: rows with another id stay as they are. */
  ghost predicate UpdatesOnly(before: Ledger, after: Ledger, id: nat) {
    && after == before.(txns := after.txns)
    && |after.txns| == |before.txns|
    && forall i | 0 <= i < |before.txns| ::
         if before.txns[i].id == id then SameTransaction(before.txns[i], after.txns[i]) else after.txns[i] == before.txns[i]
  }

  /** Ids being unique, an update is the replacement of one row. */
  lemma OneRowUpdated(before: Ledger, after: Ledger, p: int, id: nat)
    requires UpdatesOnly(before, after, id) && DistinctIds(before.txns)
    requires 0 <= p < |before.txns| && before.txns[p].id == id
    ensures after == Replace(before, p, after.txns[p])
    ensures Position(before.txns, id) == p
  {
    assert after.txns == before.txns[p := after.txns[p]];
  }

  class Database {
    var ledger: Ledger
    var published: seq<nat>

    /** Between operations the rows are those some legal run from the empty ledger leaves. */
    ghost predicate Valid()
      reads this
    {
      ledger in REACHABLE
    }

    constructor ()
      ensures Valid() && ledger == EMPTY && published == []
    {
      ledger, published := EMPTY, [];
      EmptyIsReachable();
    }

    /** The two unique constraints reject the row or the row is added, without entries. */
    method InsertTransaction(id: nat, key: Option<string>, state: TxnState, at: int, settledAt: Option<int>,
        reverses: Option<nat>)
        returns (failure: Option<Failure>)
      modifies this`ledger
      ensures failure == if CanInsert(old(ledger).txns, id, key) then None else Some(UNIQUE_VIOLATION)
      ensures ledger == if failure.Some? then old(ledger)
                        else Insert(old(ledger), Txn(id, key, state, at, settledAt, None, reverses, []))
    {
      if !CanInsert(ledger.txns, id, key) {
        return Some(UNIQUE_VIOLATION);
      }
      ledger := Insert(ledger, Txn(id, key, state, at, settledAt, None, reverses, []));
      return None;
    }

    /** One row per entry, in request order. */
    method InsertEntries(id: nat, entries: seq<Entry>)
      requires Position(ledger.txns, id) >= 0
      modifies this`ledger
      ensures var p := Position(old(ledger).txns, id);
        ledger == WithEntries(old(ledger), p, old(ledger).txns[p].entries + entries)
    {
      var p := Position(ledger.txns, id);
      ghost var before := ledger;
      ghost var already := ledger.txns[p].entries;
      assert already + [] == already;
      assert WithEntries(before, p, already) == before;
      for i := 0 to |entries|
        invariant ledger == WithEntries(before, p, already + entries[..i])
      {
        var row := ledger.txns[p];
        assert row.entries + [entries[i]] == already + entries[..i + 1];
        ledger := WithEntries(ledger, p, row.entries + [entries[i]]);
      }
      assert entries[..|entries|] == entries;
    }

    method UpdateTransactionSettled(id: nat, settledAt: int)
      modifies this`ledger
      ensures UpdatesOnly(old(ledger), ledger, id)
      ensures forall i | 0 <= i < |ledger.txns| && ledger.txns[i].id == id ::
        && ledger.txns[i].state.Settled? && ledger.txns[i].settledAt == Some(settledAt)
        && ledger.txns[i].reversedBy == old(ledger).txns[i].reversedBy
    {
      var txns := ledger.txns;
      ledger := ledger.(txns := seq(|txns|, i requires 0 <= i < |txns| =>
        if txns[i].id == id then txns[i].(state := Settled, settledAt := Some(settledAt)) else txns[i]));
    }

    method UpdateTransactionCancelled(id: nat)
      modifies this`ledger
      ensures UpdatesOnly(old(ledger), ledger, id)
      ensures forall i | 0 <= i < |ledger.txns| && ledger.txns[i].id == id ::
        && ledger.txns[i].state.Cancelled?
        && ledger.txns[i].settledAt == old(ledger).txns[i].settledAt
        && ledger.txns[i].reversedBy == old(ledger).txns[i].reversedBy
    {
      var txns := ledger.txns;
      ledger := ledger.(txns := seq(|txns|, i requires 0 <= i < |txns| =>
        if txns[i].id == id then txns[i].(state := Cancelled) else txns[i]));
    }

    method MarkOriginalTransactionReversed(original: nat, reversal: nat)
      modifies this`ledger
      ensures UpdatesOnly(old(ledger), ledger, original)
      ensures forall i | 0 <= i < |ledger.txns| && ledger.txns[i].id == original ::
        && ledger.txns[i].reversedBy == Some(reversal)
        && ledger.txns[i].state == old(ledger).txns[i].state
        && ledger.txns[i].settledAt == old(ledger).txns[i].settledAt
    {
      var txns := ledger.txns;
      ledger := ledger.(txns := seq(|txns|, i requires 0 <= i < |txns| =>
        if txns[i].id == original then txns[i].(reversedBy := Some(reversal)) else txns[i]));
    }

    method Publish(id: nat)
      modifies this`published
      ensures published == old(published) + [id]
    {
      published := published + [id];
    }

    /** What other clients do meanwhile: each of their steps happens if it can. */
    method Interfere(steps: seq<Step>)
      requires Valid()
      modifies this`ledger
      ensures Valid() && ledger == TryAll(old(ledger), steps)
    {
      ghost var before := ledger;
      for i := 0 to |steps|
        invariant Valid() && ledger == TryAll(before, steps[..i])
      {
        assert steps[..i + 1][..i] == steps[..i];
        if Enabled(ledger, steps[i]) {
          StaysReachable(ledger, steps[i]);
          ledger := Apply(ledger, steps[i]);
        }
      }
      assert steps[..|steps|] == steps;
    }
  }
}

/**
 * A settled reversal undoes its original completely: deleting every such pair of transactions from
 * the ledger leaves every settled balance as it is.
 */
module Reversal {
  import opened Base
  import opened Sums
  import opened Ledger
  import opened Balances
  import opened Machine
  import opened Structure
  import opened History

  /** Row i is an original or a reversal of a pair whose reversal has settled. */
  ghost predicate Undone(txns: seq<Txn>, i: int)
    requires 0 <= i < |txns|
  {
    || (exists j | 0 <= j < |txns| :: Pair(txns, i, j) && txns[j].state.Settled?)
    || (txns[i].state.Settled? && exists j | 0 <= j < |txns| :: Pair(txns, j, i))
  }

  ghost function UndoneRows(txns: seq<Txn>): set<int> {
    set i | 0 <= i < |txns| && Undone(txns, i)
  }

  /** The rows whose index is not in drop, in order. */
  function Without(txns: seq<Txn>, drop: set<int>): seq<Txn> {
    if txns == [] then []
    else
      var n := |txns| - 1;
      Without(txns[..n], drop) + if n in drop then [] else [txns[n]]
  }

  ghost function At(txns: seq<Txn>, f: Txn -> int): int -> int {
    (i: int) => if 0 <= i < |txns| then f(txns[i]) else 0
  }

  lemma {:induction false} WithoutSubtracts(txns: seq<Txn>, drop: set<int>, f: Txn -> int)
    requires forall i | i in drop :: 0 <= i < |txns|
    ensures Sum(Without(txns, drop), f) == Sum(txns, f) - SumSet(drop, At(txns, f))
  {
    if txns == [] {
      assert drop == {};
    } else {
      var n := |txns| - 1;
      var front, rest := txns[..n], drop - {n};
      WithoutSubtracts(front, rest, f);
      SumSetSame(rest, At(front, f), At(txns, f));
      DropAboveIsIdle(front, drop, rest);
      if n in drop {
        SumSetRemove(drop, n, At(txns, f));
        assert Without(txns, drop) == Without(front, drop);
      } else {
        assert rest == drop;
        assert Without(txns, drop) == Without(front, drop) + [txns[n]];
        SumPush(Without(front, drop), txns[n], f);
      }
    }
  }

  lemma {:induction false} DropAboveIsIdle(txns: seq<Txn>, drop: set<int>, rest: set<int>)
    requires forall i | 0 <= i < |txns| :: i in drop <==> i in rest
    ensures Without(txns, drop) == Without(txns, rest)
  {
    if txns == [] {
    } else {
      DropAboveIsIdle(txns[..|txns| - 1], drop, rest);
    }
  }

  ghost predicate Partners(txns: seq<Txn>, i: int, j: int)
    requires 0 <= i < |txns| && 0 <= j < |txns|
  {
    Pair(txns, i, j) || Pair(txns, j, i)
  }

  /** Row i is settled and its partner is in d too. */
  ghost predicate HasPartner(txns: seq<Txn>, d: set<int>, i: int) {
    && 0 <= i < |txns|
    && txns[i].state.Settled?
    && exists j | j in d :: 0 <= j < |txns| && Partners(txns, i, j)
  }

  ghost predicate ClosedUnderPairs(txns: seq<Txn>, d: set<int>) {
    forall i {:trigger HasPartner(txns, d, i)} | i in d :: HasPartner(txns, d, i)
  }

  lemma PartnerIsUnique(l: Ledger, i: int, j: int, j': int)
    requires Inv(l) && 0 <= i < |l.txns| && 0 <= j < |l.txns| && 0 <= j' < |l.txns|
    requires Partners(l.txns, i, j) && Partners(l.txns, i, j')
    ensures j == j' && i != j
  {
    assert RowSound(l.accounts, l.txns[i]) && RowSound(l.accounts, l.txns[j]);
  }

  lemma PartnersCancel(l: Ledger, i: int, j: int, k: Key)
    requires Inv(l) && 0 <= i < |l.txns| && 0 <= j < |l.txns| && Partners(l.txns, i, j)
    ensures Impact(l.txns[i].entries, k) + Impact(l.txns[j].entries, k) == 0
  {
    var a, b := if Pair(l.txns, i, j) then i else j, if Pair(l.txns, i, j) then j else i;
    FlippedNegates(l.txns[a].entries);
    OrderDoesNotMatter(Flipped(l.txns[a].entries), l.txns[b].entries);
  }

  lemma RemovingAPairStaysClosed(l: Ledger, d: set<int>, i: int, j: int)
    requires Inv(l) && ClosedUnderPairs(l.txns, d)
    requires 0 <= i < |l.txns| && 0 <= j < |l.txns| && Partners(l.txns, i, j)
    ensures ClosedUnderPairs(l.txns, d - {i} - {j})
  {
    var rest := d - {i} - {j};
    forall a | a in rest ensures HasPartner(l.txns, rest, a) {
      var b := PartnerElsewhere(l, d, i, j, a);
    }
  }

  lemma PartnerElsewhere(l: Ledger, d: set<int>, i: int, j: int, a: int) returns (b: int)
    requires Inv(l) && HasPartner(l.txns, d, a) && a != i && a != j
    requires 0 <= i < |l.txns| && 0 <= j < |l.txns| && Partners(l.txns, i, j)
    ensures b in d && b != i && b != j && 0 <= b < |l.txns| && Partners(l.txns, a, b)
  {
    b :| b in d && 0 <= b < |l.txns| && Partners(l.txns, a, b);
    if b == i {
      PartnerIsUnique(l, i, j, a);
    } else if b == j {
      PartnerIsUnique(l, j, i, a);
    }
  }

  /** Partners in a closed set are two settled rows whose contributions cancel. */
  lemma PairContributesNothing(l: Ledger, d: set<int>, i: int, j: int, k: Key)
    requires Inv(l) && i in d && j in d && HasPartner(l.txns, d, i) && HasPartner(l.txns, d, j)
    requires Partners(l.txns, i, j)
    ensures var f := At(l.txns, Pick(Value(k), Settled, None, None)); SumSet(d, f) == SumSet(d - {i} - {j}, f)
  {
    var pick := Pick(Value(k), Settled, None, None);
    PartnerIsUnique(l, i, j, j);
    SumSetRemove(d, i, At(l.txns, pick));
    SumSetRemove(d - {i}, j, At(l.txns, pick));
    PartnersCancel(l, i, j, k);
    assert pick(l.txns[i]) == Impact(l.txns[i].entries, k);
    assert pick(l.txns[j]) == Impact(l.txns[j].entries, k);
  }

  lemma {:induction false} ClosedSetCancels(l: Ledger, d: set<int>, k: Key)
    requires Inv(l) && ClosedUnderPairs(l.txns, d)
    ensures SumSet(d, At(l.txns, Pick(Value(k), Settled, None, None))) == 0
    decreases |d|
  {
    if d == {} {
    } else {
      var i := AnyOf(d);
      assert HasPartner(l.txns, d, i);
      var j :| j in d && 0 <= j < |l.txns| && Partners(l.txns, i, j);
      assert HasPartner(l.txns, d, j);
      PairContributesNothing(l, d, i, j, k);
      RemovingAPairStaysClosed(l, d, i, j);
      ClosedSetCancels(l, d - {i} - {j}, k);
    }
  }

  lemma UndoneIsClosed(l: Ledger)
    requires Inv(l)
    ensures ClosedUnderPairs(l.txns, UndoneRows(l.txns))
  {
    var txns, d := l.txns, UndoneRows(l.txns);
    forall i | i in d ensures HasPartner(txns, d, i) {
      assert RowSound(l.accounts, txns[i]);
      if j :| 0 <= j < |txns| && Pair(txns, i, j) && txns[j].state.Settled? {
        assert Undone(txns, j) && Partners(txns, i, j);
      } else {
        var j :| 0 <= j < |txns| && Pair(txns, j, i);
        assert Undone(txns, j) && Partners(txns, i, j);
      }
    }
  }

  /** In every reachable ledger, removing all undone pairs changes no settled balance. */
  lemma UndonePairsDoNotMatter(steps: seq<Step>, k: Key)
    requires Legal(EMPTY, steps)
    ensures var txns := After(EMPTY, steps).txns;
      SettledOn(Without(txns, UndoneRows(txns)), k) == SettledOn(txns, k)
  {
    RunKeeps(EMPTY, steps);
    var l := After(EMPTY, steps);
    UndoneIsClosed(l);
    ClosedSetCancels(l, UndoneRows(l.txns), k);
    WithoutSubtracts(l.txns, UndoneRows(l.txns), Pick(Value(k), Settled, None, None));
  }
}

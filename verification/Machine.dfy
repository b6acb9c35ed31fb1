/**
 * The ledger as a state machine. Every service operation runs in one SERIALIZABLE database
 * transaction, so each is one atomic step; a failed operation leaves the ledger as it was.
 */
module Machine {
  import opened Base
  import opened Ledger
  import opened Balances

  const MAX_BATCH := 1000

  /** The verdict on one account and currency that a request touches. */
  predicate KeyAccepted(l: Ledger, es: seq<Entry>, k: Key) {
    && k.account in l.accounts
    && k.currency in l.accounts[k.account]
    && (l.accounts[k.account][k.currency]
        || Impact(es, k) >= 0
        || CurrentBalance(l, k).available + Impact(es, k) >= 0)
  }

  predicate Accepts(l: Ledger, es: seq<Entry>) {
    forall e | e in es :: KeyAccepted(l, es, e.On())
  }

  /** What the request validator and the handlers let through. */
  predicate WellFormed(r: Request) {
    r.entries != [] && !r.state.Cancelled? && Balanced(r.entries)
  }

  predicate Postable(l: Ledger, id: nat, r: Request) {
    WellFormed(r) && Accepts(l, r.entries) && CanInsert(l.txns, id, r.key)
  }

  /** Only a settled transaction that is no reversal and has none yet. */
  predicate Reversible(t: Txn) {
    t.reversedBy.None? && t.reverses.None? && t.state.Settled?
  }

  /** The reversal of a transaction whose entries were fetched in this order. */
  function ReversalOf(fetched: seq<Entry>, key: Option<string>, state: TxnState): Request {
    Request(key, state, Flipped(fetched))
  }

  /** Row-by-row insertion of a batch; None when a unique constraint is violated on the way. */
  function InsertAll(l: Ledger, reqs: seq<Request>, ids: seq<nat>, base: int): (r: Option<Ledger>)
    requires |ids| == |reqs|
    ensures r.Some? ==> r.value == l.(txns := r.value.txns) && |r.value.txns| == |l.txns| + |reqs|
  {
    if reqs == [] then Some(l)
    else
      var n := |reqs| - 1;
      var front := InsertAll(l, reqs[..n], ids[..n], base);
      if front.Some? && CanInsert(front.value.txns, ids[n], reqs[n].key)
      then Some(Insert(front.value, MakeTxn(ids[n], reqs[n], None, base + n)))
      else None
  }

  datatype Step =
    | CreateAccount(account: string, policy: map<string, bool>)
    | Post(id: nat, request: Request, at: int)
    | Batch(ids: seq<nat>, requests: seq<Request>, base: int)
    | Settle(target: nat, at: int)
    | Cancel(target: nat)
    | Reverse(target: nat, fetched: seq<Entry>, id: nat, key: Option<string>, state: TxnState, at: int)
    | Capture(k: Key, at: int)

  predicate Enabled(l: Ledger, s: Step) {
    match s
    case CreateAccount(a, policy) => a !in l.accounts
    case Post(id, r, at) => at >= l.clock && Postable(l, id, r)
    case Batch(ids, rs, base) =>
      && base >= l.clock
      && |ids| == |rs|
      && 1 <= |rs| <= MAX_BATCH
      && (forall i | 0 <= i < |rs| :: WellFormed(rs[i]) && Accepts(l, rs[i].entries))
      && InsertAll(l, rs, ids, base).Some?
    case Settle(target, at) =>
      var i := Position(l.txns, target); i >= 0 && l.txns[i].state.Pending?
    case Cancel(target) =>
      var i := Position(l.txns, target); i >= 0 && l.txns[i].state.Pending?
    case Reverse(target, fetched, id, key, state, at) =>
      var i := Position(l.txns, target);
      && at >= l.clock
      && i >= 0
      && Reversible(l.txns[i])
      && SameEntries(l.txns[i].entries, fetched)
      && Postable(l, id, ReversalOf(fetched, key, state))
    case Capture(k, at) => forall s | s in l.snapshots :: s.key != k || s.at != at
  }

  function Apply(l: Ledger, s: Step): Ledger
    requires Enabled(l, s)
  {
    match s
    case CreateAccount(a, policy) => l.(accounts := l.accounts[a := policy])
    case Post(id, r, at) => Insert(l, MakeTxn(id, r, None, at)).(clock := at)
    case Batch(ids, rs, base) => InsertAll(l, rs, ids, base).value.(clock := base)
    case Settle(target, at) => Settling(l, Position(l.txns, target), at)
    case Cancel(target) => Cancelling(l, Position(l.txns, target))
    case Reverse(target, fetched, id, key, state, at) =>
      Reversing(l, Position(l.txns, target), fetched, id, key, state, at).(clock := at)
    case Capture(k, at) => Capturing(l, k, at)
  }

  function Settling(l: Ledger, i: int, at: int): Ledger
    requires 0 <= i < |l.txns|
  {
    Replace(l, i, l.txns[i].(state := Settled, settledAt := Some(at)))
  }

  function Cancelling(l: Ledger, i: int): Ledger
    requires 0 <= i < |l.txns|
  {
    Replace(l, i, l.txns[i].(state := Cancelled))
  }

  /** Insert the reversal, then write the link on the original. */
  function Reversing(l: Ledger, i: int, fetched: seq<Entry>, id: nat, key: Option<string>, state: TxnState, at: int): Ledger
    requires 0 <= i < |l.txns|
  {
    var t := l.txns[i];
    Replace(Insert(l, MakeTxn(id, ReversalOf(fetched, key, state), Some(t.id), at)), i, t.(reversedBy := Some(id)))
  }

  /**
   * Store the settled fold at or before the given time as a snapshot. The repository reads
   * snapshots but holds no code that writes them; this step is what a correct writer would do.
   */
  function Capturing(l: Ledger, k: Key, at: int): Ledger {
    var folded := FoldedBalance(l.txns, k, Some(at));
    l.(snapshots := l.snapshots + [Snapshot(k, folded.settled, folded.count, at)],
       clock := if l.clock > at then l.clock else at + 1)
  }

  datatype Transition = Transition(before: Ledger, step: Step, after: Ledger)

  ghost predicate IsTaken(t: Transition) {
    Enabled(t.before, t.step) && t.after == Apply(t.before, t.step)
  }

  /** What the machine does: every enabled step and where it leads. */
  ghost const TAKEN: iset<Transition> := iset t | IsTaken(t)

  lemma WhatIsTaken(l: Ledger, s: Step, m: Ledger)
    ensures Transition(l, s, m) in TAKEN <==> Enabled(l, s) && m == Apply(l, s)
  {
    assert Transition(l, s, m) in TAKEN <==> IsTaken(Transition(l, s, m));
  }

  /** The step leads nowhere: it is not enabled. */
  ghost predicate Refused(l: Ledger, s: Step) {
    forall m :: Transition(l, s, m) !in TAKEN
  }

  lemma RefusedIff(l: Ledger, s: Step)
    ensures Refused(l, s) <==> !Enabled(l, s)
  {
    if Enabled(l, s) {
      WhatIsTaken(l, s, Apply(l, s));
    } else {
      forall m ensures Transition(l, s, m) !in TAKEN {
        WhatIsTaken(l, s, m);
      }
    }
  }

  // ----- runs

  predicate Legal(l: Ledger, steps: seq<Step>)
    decreases |steps|, 0
  {
    steps == [] ||
    var n := |steps| - 1;
    Legal(l, steps[..n]) && Enabled(After(l, steps[..n]), steps[n])
  }

  function After(l: Ledger, steps: seq<Step>): Ledger
    requires Legal(l, steps)
    decreases |steps|, 1
  {
    if steps == [] then l
    else
      var n := |steps| - 1;
      Apply(After(l, steps[..n]), steps[n])
  }

  /** A run one step longer. */
  lemma OneMore(l: Ledger, steps: seq<Step>, s: Step)
    requires Legal(l, steps) && Enabled(After(l, steps), s)
    ensures Legal(l, steps + [s]) && After(l, steps + [s]) == Apply(After(l, steps), s)
  {
    assert (steps + [s])[..|steps|] == steps;
  }

  /** Two runs in a row are a run. */
  lemma {:induction false} RunsCompose(l: Ledger, a: seq<Step>, b: seq<Step>)
    requires Legal(l, a) && Legal(After(l, a), b)
    ensures Legal(l, a + b) && After(l, a + b) == After(After(l, a), b)
    decreases |b|
  {
    if b == [] {
      assert a + b == a;
    } else {
      var n := |b| - 1;
      RunsCompose(l, a, b[..n]);
      OneMore(l, a + b[..n], b[n]);
      assert a + b[..n] + [b[n]] == a + b;
    }
  }

  ghost predicate IsReached(l: Ledger) {
    exists steps :: Legal(EMPTY, steps) && After(EMPTY, steps) == l
  }

  /** The ledgers that runs from the empty ledger arrive at. */
  ghost const REACHABLE: iset<Ledger> := iset l | IsReached(l)

  lemma EmptyIsReachable()
    ensures EMPTY in REACHABLE
  {
    assert Legal(EMPTY, []) && After(EMPTY, []) == EMPTY;
  }

  lemma StaysReachable(l: Ledger, s: Step)
    requires l in REACHABLE && Enabled(l, s)
    ensures Apply(l, s) in REACHABLE
  {
    var steps := RunTo(l);
    OneMore(EMPTY, steps, s);
    assert IsReached(Apply(l, s));
  }

  /** Every reachable ledger has a run, so what holds after every run holds of it. */
  lemma RunTo(l: Ledger) returns (steps: seq<Step>)
    requires l in REACHABLE
    ensures Legal(EMPTY, steps) && After(EMPTY, steps) == l
  {
    assert IsReached(l);
    steps :| Legal(EMPTY, steps) && After(EMPTY, steps) == l;
  }

  /** Steps of other clients: each happens if it can. */
  function Try(l: Ledger, s: Step): Ledger { if Enabled(l, s) then Apply(l, s) else l }

  function TryAll(l: Ledger, steps: seq<Step>): Ledger {
    if steps == [] then l else Try(TryAll(l, steps[..|steps| - 1]), steps[|steps| - 1])
  }

  /** What is legal happens. */
  lemma {:induction false} LegalRunsHappen(l: Ledger, steps: seq<Step>)
    requires Legal(l, steps)
    ensures TryAll(l, steps) == After(l, steps)
    decreases |steps|
  {
    if steps == [] {
    } else {
      LegalRunsHappen(l, steps[..|steps| - 1]);
    }
  }

  /** Whatever other clients attempt amounts to a legal run. */
  lemma {:induction false} TryAllIsARun(l: Ledger, steps: seq<Step>) returns (done: seq<Step>)
    ensures Legal(l, done) && After(l, done) == TryAll(l, steps)
  {
    if steps == [] {
      done := [];
    } else {
      var n := |steps| - 1;
      done := TryAllIsARun(l, steps[..n]);
      if Enabled(TryAll(l, steps[..n]), steps[n]) {
        OneMore(l, done, steps[n]);
        done := done + [steps[n]];
      }
    }
  }
}

/**
 * What the operations of the transaction processor are meant to do: their requests and faults, the
 * step of the ledger machine each one is, and what idempotency keys have to do with it.
 */
module Service {
  import opened Base
  import opened Ledger
  import opened Sums
  import opened Balances
  import opened Machine
  import opened Guard
  import opened Evolution
  import opened Structure
  import opened KeyProjection
  import Validator
  import Retry
  import Idempotency

  // ----- requests

  datatype PostRequest = PostRequest(
    idempotencyKey: Option<string>,
    state: string,
    entries: seq<Validator.EntryRequest>,
    metadata: map<string, string>)

  datatype ReversalRequest = ReversalRequest(idempotencyKey: Option<string>, state: string, metadata: map<string, string>)

  function ToTransaction(req: PostRequest): Validator.Transaction {
    Validator.Transaction(req.state, req.entries, req.metadata)
  }

  /** The handlers bind state to one of two values. */
  predicate Bound(state: string) { state == "pending" || state == "settled" }

  function StateOf(state: string): TxnState { if state == "settled" then Settled else Pending }

  function ToRequest(req: PostRequest): Request
    requires Validator.Typed(req.entries)
  {
    Request(req.idempotencyKey, StateOf(req.state), Validator.ToEntries(req.entries))
  }

  predicate AllTyped(reqs: seq<PostRequest>) {
    forall i | 0 <= i < |reqs| :: Validator.Typed(reqs[i].entries)
  }

  function ToRequests(reqs: seq<PostRequest>): (r: seq<Request>)
    requires AllTyped(reqs)
    ensures |r| == |reqs| && forall i {:trigger r[i]} | 0 <= i < |reqs| :: r[i] == ToRequest(reqs[i])
  {
    if reqs == [] then [] else ToRequests(reqs[..|reqs| - 1]) + [ToRequest(reqs[|reqs| - 1])]
  }

  lemma AcceptableIsWellFormed(supported: set<string>, req: PostRequest)
    requires Validator.Acceptable(supported, ToTransaction(req))
    ensures Validator.Typed(req.entries) && WellFormed(ToRequest(req))
  {
    Validator.BalanceVerdictIsExact(supported, req.entries);
  }

  // ----- what requests ask, in their own terms

  /** The requests in the given state, added up on one key: credits less debits, in units. */
  function AskedIn(reqs: seq<PostRequest>, state: string, k: Key): int
    requires AllTyped(reqs)
  {
    if reqs == [] then 0
    else
      var req := reqs[|reqs| - 1];
      AskedIn(reqs[..|reqs| - 1], state, k)
      + if req.state == state then Validator.Asked(req.entries, k.account, k.currency) else 0
  }

  /** The row is pending or settled, keyed and dated as the request and the clock say. */
  predicate RowIs(t: Txn, id: nat, key: Option<string>, state: string, at: int) {
    && t.id == id && t.key == key && t.postedAt == at
    && (t.state.Settled? <==> state == "settled")
    && (t.state.Pending? <==> state == "pending")
    && t.settledAt == (if state == "settled" then Some(at) else None)
    && t.reversedBy.None?
  }

  /**
   * Exactly the requested transactions were added, the i-th i microseconds after the base time; the
   * settled balances moved by what the "settled" requests ask, the pending ones by the "pending" ones.
   */
  ghost predicate AsAsked(l: Ledger, after: Ledger, reqs: seq<PostRequest>, ids: seq<nat>, base: int)
    requires AllTyped(reqs) && |ids| == |reqs|
  {
    RowsAsAsked(l, after, reqs, ids, base) && BalancesAsAsked(l, after, reqs)
  }

  predicate RowAsAsked(t: Txn, id: nat, req: PostRequest, at: int) {
    RowIs(t, id, req.idempotencyKey, req.state, at) && t.reverses.None?
  }

  ghost predicate RowsAsAsked(l: Ledger, after: Ledger, reqs: seq<PostRequest>, ids: seq<nat>, base: int)
    requires |ids| == |reqs|
  {
    && |after.txns| == |l.txns| + |reqs|
    && after.txns[..|l.txns|] == l.txns
    && forall i | 0 <= i < |reqs| ::
         RowAsAsked(after.txns[|l.txns| + i], ids[i], reqs[i], base + i)
  }

  ghost predicate BalancesAsAsked(l: Ledger, after: Ledger, reqs: seq<PostRequest>)
    requires AllTyped(reqs)
  {
    forall k: Key ::
      && SettledOn(after.txns, k) == SettledOn(l.txns, k) + AskedIn(reqs, "settled", k)
      && PendingOn(after.txns, k) == PendingOn(l.txns, k) + AskedIn(reqs, "pending", k)
  }

  lemma RowMoves(txns: seq<Txn>, t: Txn, k: Key)
    ensures SettledOn(txns + [t], k) == SettledOn(txns, k) + if t.state.Settled? then Impact(t.entries, k) else 0
    ensures PendingOn(txns + [t], k) == PendingOn(txns, k) + if t.state.Pending? then Impact(t.entries, k) else 0
  {
    SumPush(txns, t, Pick(EntrySum(SignedOn(k)), Settled, None, None));
    SumPush(txns, t, Pick(EntrySum(SignedOn(k)), Pending, None, None));
  }

  lemma {:induction false} AskedMoves(l: Ledger, reqs: seq<PostRequest>, ids: seq<nat>, base: int, k: Key)
    requires AllTyped(reqs) && |ids| == |reqs| && forall i | 0 <= i < |reqs| :: Bound(reqs[i].state)
    requires InsertAll(l, ToRequests(reqs), ids, base).Some?
    ensures var txns := InsertAll(l, ToRequests(reqs), ids, base).value.txns;
      && SettledOn(txns, k) == SettledOn(l.txns, k) + AskedIn(reqs, "settled", k)
      && PendingOn(txns, k) == PendingOn(l.txns, k) + AskedIn(reqs, "pending", k)
  {
    if reqs == [] {
    } else {
      var n := |reqs| - 1;
      var front := reqs[..n];
      assert ToRequests(reqs)[..n] == ToRequests(front);
      AskedMoves(l, front, ids[..n], base, k);
      RowMoves(InsertAll(l, ToRequests(front), ids[..n], base).value.txns, MakeTxn(ids[n], ToRequest(reqs[n]), None, base + n), k);
      Validator.ImpactIsAsked(reqs[n].entries, k);
    }
  }

  lemma MadeAsAsked(req: PostRequest, id: nat, at: int)
    requires Validator.Typed(req.entries) && Bound(req.state)
    ensures RowAsAsked(MakeTxn(id, ToRequest(req), None, at), id, req, at)
  {
  }

  lemma RowInserted(l: Ledger, requests: seq<Request>, ids: seq<nat>, base: int, i: int)
    requires |ids| == |requests| && InsertAll(l, requests, ids, base).Some? && 0 <= i < |requests|
    ensures InsertAll(l, requests, ids, base).value.txns[|l.txns| + i] == MakeTxn(ids[i], requests[i], None, base + i)
    ensures InsertAll(l, requests, ids, base).value.txns[..|l.txns|] == l.txns
  {
    BatchAppends(l, requests, ids, base);
  }

  lemma RowsInserted(l: Ledger, reqs: seq<PostRequest>, ids: seq<nat>, base: int, after: Ledger)
    requires AllTyped(reqs) && |ids| == |reqs| && forall i | 0 <= i < |reqs| :: Bound(reqs[i].state)
    requires InsertAll(l, ToRequests(reqs), ids, base).Some?
    requires after.txns == InsertAll(l, ToRequests(reqs), ids, base).value.txns
    ensures RowsAsAsked(l, after, reqs, ids, base)
  {
    BatchAppends(l, ToRequests(reqs), ids, base);
    assert after.txns[..|l.txns|] == l.txns;
    forall i | 0 <= i < |reqs| ensures RowAsAsked(after.txns[|l.txns| + i], ids[i], reqs[i], base + i) {
      RowInserted(l, ToRequests(reqs), ids, base, i);
      MadeAsAsked(reqs[i], ids[i], base + i);
    }
  }

  lemma InsertedAsAsked(l: Ledger, reqs: seq<PostRequest>, ids: seq<nat>, base: int, after: Ledger)
    requires AllTyped(reqs) && |ids| == |reqs| && forall i | 0 <= i < |reqs| :: Bound(reqs[i].state)
    requires InsertAll(l, ToRequests(reqs), ids, base).Some?
    requires after.txns == InsertAll(l, ToRequests(reqs), ids, base).value.txns
    ensures AsAsked(l, after, reqs, ids, base)
  {
    RowsInserted(l, reqs, ids, base, after);
    forall k: Key
      ensures SettledOn(after.txns, k) == SettledOn(l.txns, k) + AskedIn(reqs, "settled", k)
      ensures PendingOn(after.txns, k) == PendingOn(l.txns, k) + AskedIn(reqs, "pending", k)
    {
      AskedMoves(l, reqs, ids, base, k);
    }
  }

  /**
   * Exactly the reversal was added and linked; the settled or the pending balances moved back by what
   * the original did, as the request's state says.
   */
  ghost predicate ReversedAsAsked(l: Ledger, after: Ledger, target: nat, req: ReversalRequest, id: nat, at: int) {
    var p := Position(l.txns, target);
    p >= 0 && RowsReversed(l, after, p, req, id, at) && BalancesReversed(l, after, l.txns[p].entries, req)
  }

  ghost predicate RowsReversed(l: Ledger, after: Ledger, p: int, req: ReversalRequest, id: nat, at: int)
    requires 0 <= p < |l.txns|
  {
    && |after.txns| == |l.txns| + 1
    && RowIs(after.txns[|l.txns|], id, req.idempotencyKey, req.state, at)
    && after.txns[|l.txns|].reverses == Some(l.txns[p].id)
    && after.txns[..|l.txns|] == l.txns[p := l.txns[p].(reversedBy := Some(id))]
  }

  ghost predicate BalancesReversed(l: Ledger, after: Ledger, undone: seq<Entry>, req: ReversalRequest) {
    forall k: Key ::
      && SettledOn(after.txns, k) == SettledOn(l.txns, k) - (if req.state == "settled" then Impact(undone, k) else 0)
      && PendingOn(after.txns, k) == PendingOn(l.txns, k) - (if req.state == "pending" then Impact(undone, k) else 0)
  }

  lemma LinkMovesNothing(txns: seq<Txn>, p: int, u: Txn, k: Key)
    requires 0 <= p < |txns| && u == txns[p].(reversedBy := u.reversedBy)
    ensures SettledOn(txns[p := u], k) == SettledOn(txns, k) && PendingOn(txns[p := u], k) == PendingOn(txns, k)
  {
    SumUpdate(txns, p, u, Pick(EntrySum(SignedOn(k)), Settled, None, None));
    SumUpdate(txns, p, u, Pick(EntrySum(SignedOn(k)), Pending, None, None));
  }

  // ----- faults

  /** Where a database or publisher error strikes an operation and rolls it back. */
  datatype Stage = AtBegin | AtLock | AtAccountRead | AtBalanceRead | AtWrite | AtPublish | AtCommit

  /** Before the first write of a post. */
  predicate EarlyStage(stage: Stage) { stage in {AtBegin, AtLock, AtAccountRead, AtBalanceRead} }

  /** ReplyLost: the commit takes effect and the connection breaks before the client hears of it. */
  datatype Fault = NoFault | Fault(stage: Stage, failure: Retry.Failure) | ReplyLost

  const LOST := Retry.Failure(None)

  /** The ledger after an operation whose step is s: faults other than a lost reply undo it. */
  function Committed(l: Ledger, s: Step, fault: Fault): Ledger {
    if Enabled(l, s) && !fault.Fault? then Apply(l, s) else l
  }

  /** Nothing happened, unless the reply to the commit was lost. */
  ghost predicate NoTrace(l: Ledger, s: Step, fault: Fault, after: Ledger) {
    after == l || (fault.ReplyLost? && Transition(l, s, after) in TAKEN)
  }

  lemma TakenEvolves(l: Ledger, s: Step, m: Ledger)
    requires Transition(l, s, m) in TAKEN
    ensures Evolves(l, m)
  {
    WhatIsTaken(l, s, m);
    StepEvolves(l, s);
  }

  lemma CommittedEvolves(l: Ledger, s: Step, fault: Fault)
    ensures Evolves(l, Committed(l, s, fault))
    ensures l in REACHABLE ==> Committed(l, s, fault) in REACHABLE
  {
    if Enabled(l, s) {
      StepEvolves(l, s);
      if l in REACHABLE {
        StaysReachable(l, s);
      }
    }
  }

  // ----- steps of the operations

  function PostStep(l: Ledger, req: PostRequest, a: Attempt): Step
    requires Validator.Typed(req.entries)
  {
    Post(a.id, ToRequest(req), l.clock + a.tick)
  }

  function BatchStep(l: Ledger, requests: seq<Request>, ids: seq<nat>, tick: nat): Step {
    Batch(ids, requests, l.clock + tick)
  }

  /** How the database orders the entry rows of one transaction. */
  type Order = seq<Entry> -> seq<Entry>

  ghost predicate Permutes(order: Order) {
    forall es :: SameEntries(es, order(es))
  }

  function ReverseStep(l: Ledger, target: nat, order: Order, req: ReversalRequest, id: nat, tick: nat): Step {
    var p := Position(l.txns, target);
    Reverse(target, if p >= 0 then order(l.txns[p].entries) else [], id, req.idempotencyKey, StateOf(req.state), l.clock + tick)
  }

  // ----- a post and its attempts

  /** One attempt's circumstances: what others do before it, its id and clock reading, its fault. */
  datatype Attempt = Attempt(interference: seq<Step>, interrupted: bool, id: nat, tick: nat, fault: Fault)

  predicate IsRetryable(error: ServiceError) {
    error.Database? && Retry.Retryable(error.failure, Retry.DEFAULT.retryableErrors)
  }

  /** The ledger after other clients' steps before the first n attempts, none of which left a trace. */
  function Seen(l: Ledger, plan: nat -> Attempt, n: nat): Ledger {
    if n == 0 then l else TryAll(Seen(l, plan, n - 1), plan(n - 1).interference)
  }

  lemma TryAllEvolves(l: Ledger, steps: seq<Step>)
    ensures Evolves(l, TryAll(l, steps))
  {
    var done := TryAllIsARun(l, steps);
    RunEvolves(l, done);
  }

  lemma {:induction false} SeenEvolves(l: Ledger, plan: nat -> Attempt, n: nat)
    ensures Evolves(l, Seen(l, plan, n))
  {
    if n == 0 {
    } else {
      SeenEvolves(l, plan, n - 1);
      TryAllEvolves(Seen(l, plan, n - 1), plan(n - 1).interference);
      EvolvesTransitive(l, Seen(l, plan, n - 1), Seen(l, plan, n));
    }
  }

  /** A serialization failure or a deadlock. */
  predicate Transient(failure: Retry.Failure) {
    failure.code == Some("40001") || failure.code == Some("40P01")
  }

  ghost predicate FailsRetryably(a: Attempt) {
    a.fault.Fault? && Transient(a.fault.failure)
  }

  ghost predicate AllRetried(plan: nat -> Attempt, n: nat) {
    forall i | 0 <= i < n :: FailsRetryably(plan(i))
  }

  /** The posting time of the last attempt, as its clock reads. */
  function PostedAt(l: Ledger, plan: nat -> Attempt, attempts: nat): int
    requires attempts >= 1
  {
    Seen(l, plan, attempts).clock + plan(attempts - 1).tick
  }

  /** From now on the attempt posts the request or leaves no trace, and says so but for a lost reply. */
  ghost predicate Attempted(now: Ledger, req: PostRequest, a: Attempt, r: Result<nat, ServiceError>, after: Ledger)
    requires Validator.Typed(req.entries)
  {
    var step := PostStep(now, req, a);
    && after == Committed(now, step, a.fault)
    && (r.Ok? <==> Enabled(now, step) && a.fault.NoFault?)
    && (r.Ok? ==> r.value == a.id)
  }

  /** Where a fault strikes an enabled step, the error is the fault's own; only a failed account read is reported otherwise. */
  ghost predicate Reported(now: Ledger, req: PostRequest, a: Attempt, r: Result<nat, ServiceError>)
    requires Validator.Typed(req.entries)
  {
    Enabled(now, PostStep(now, req, a)) && a.fault.Fault? && !a.fault.stage.AtAccountRead? ==>
      r == Err(Database(a.fault.failure))
  }

  /** Attempt i meets an enabled step and a transient failure. */
  ghost predicate TransientAt(l: Ledger, req: PostRequest, plan: nat -> Attempt, i: nat)
    requires Validator.Typed(req.entries)
  {
    var now, a := Seen(l, plan, i + 1), plan(i);
    Enabled(now, PostStep(now, req, a)) && FailsRetryably(a) && !a.fault.stage.AtAccountRead?
  }

  /** A call that ends on a transient failure has used all six attempts, or its context ended. */
  ghost predicate Persists(l: Ledger, req: PostRequest, plan: nat -> Attempt, attempts: nat)
    requires Validator.Typed(req.entries) && attempts >= 1
  {
    TransientAt(l, req, plan, attempts - 1) ==> attempts == 6 || plan(attempts).interrupted
  }

  /** Attempts before n fail transiently, the context lasts, and attempt n meets an enabled step and no fault. */
  ghost predicate GoesThroughAt(l: Ledger, req: PostRequest, plan: nat -> Attempt, n: nat)
    requires Validator.Typed(req.entries)
  {
    && n <= 5
    && (forall i: nat | i < n :: TransientAt(l, req, plan, i))
    && (forall i | 1 <= i <= n :: !plan(i).interrupted)
    && var now := Seen(l, plan, n + 1);
    && Enabled(now, PostStep(now, req, plan(n)))
    && plan(n).fault.NoFault?
  }

  /** The first n attempts were rolled back and may be repeated. */
  ghost predicate AllFailed(l: Ledger, plan: nat -> Attempt, n: nat, after: Ledger) {
    after == Seen(l, plan, n) && AllRetried(plan, n)
  }

  /**
   * What a post call may do to the ledger: at most six attempts, all but the last failed with a
   * retryable error and were rolled back, so at most one takes effect, and it is the last.
   */
  ghost predicate OnceOrNever(l: Ledger, req: PostRequest, plan: nat -> Attempt,
      r: Result<nat, ServiceError>, attempts: nat, after: Ledger)
    requires Validator.Typed(req.entries) && attempts >= 1
  {
    && attempts <= 6
    && AllRetried(plan, attempts - 1)
    && Attempted(Seen(l, plan, attempts), req, plan(attempts - 1), r, after)
  }

  lemma OneMoreAttempt(l: Ledger, req: PostRequest, plan: nat -> Attempt, n: nat,
      before: Ledger, r: Result<nat, ServiceError>, after: Ledger)
    requires Validator.Typed(req.entries) && n <= Retry.DEFAULT.maxRetries
    requires AllFailed(l, plan, n, before)
    requires Attempted(TryAll(before, plan(n).interference), req, plan(n), r, after)
    requires Reported(TryAll(before, plan(n).interference), req, plan(n), r)
    ensures OnceOrNever(l, req, plan, r, n + 1, after)
    ensures TransientAt(l, req, plan, n) ==> r.Err? && IsRetryable(r.error)
    ensures FailsRetryably(plan(n)) ==> AllFailed(l, plan, n + 1, after)
  {
    assert Seen(l, plan, n + 1) == TryAll(before, plan(n).interference);
  }

  /** So retrying pays off: a call gets through at the first attempt that can, if only transient failures come before it. */
  lemma RetriesPayOff(l: Ledger, req: PostRequest, plan: nat -> Attempt, n: nat,
      r: Result<nat, ServiceError>, attempts: nat, after: Ledger)
    requires Validator.Typed(req.entries) && attempts >= 1 && GoesThroughAt(l, req, plan, n)
    requires OnceOrNever(l, req, plan, r, attempts, after) && Persists(l, req, plan, attempts)
    ensures r == Ok(plan(n).id) && attempts == n + 1
  {
    var failedLast, failedThere := TransientAt(l, req, plan, attempts - 1), FailsRetryably(plan(n));
    var seen := Seen(l, plan, attempts);
  }

  /**
   * What a post call that makes attempts comes to: at most one of them takes effect; transient failures
   * are tried again and retrying pays off; and what takes effect is what the request asks.
   */
  ghost predicate PostOutcome(l: Ledger, req: PostRequest, plan: nat -> Attempt,
      r: Result<nat, ServiceError>, attempts: nat, after: Ledger)
  {
    && attempts >= 1
    && Validator.Typed(req.entries)
    && OnceOrNever(l, req, plan, r, attempts, after)
    && Persists(l, req, plan, attempts)
    && (forall n: nat | GoesThroughAt(l, req, plan, n) :: r == Ok(plan(n).id) && attempts == n + 1)
    && (r.Ok? || after != Seen(l, plan, attempts) ==>
          AsAsked(Seen(l, plan, attempts), after, [req], [plan(attempts - 1).id], PostedAt(l, plan, attempts)))
  }

  lemma PostComesTo(l: Ledger, req: PostRequest, plan: nat -> Attempt, r: Result<nat, ServiceError>, attempts: nat, after: Ledger)
    requires Validator.Typed(req.entries) && Bound(req.state) && attempts >= 1
    requires OnceOrNever(l, req, plan, r, attempts, after) && Persists(l, req, plan, attempts)
    ensures PostOutcome(l, req, plan, r, attempts, after)
  {
    forall n: nat | GoesThroughAt(l, req, plan, n) ensures r == Ok(plan(n).id) && attempts == n + 1 {
      RetriesPayOff(l, req, plan, n, r, attempts, after);
    }
    CallAsAsked(l, req, plan, r, attempts, after);
  }

  lemma GaveUp(l: Ledger, req: PostRequest, plan: nat -> Attempt, n: nat, error: ServiceError, after: Ledger)
    requires Validator.Typed(req.entries) && 1 <= n <= Retry.DEFAULT.maxRetries + 1 && AllFailed(l, plan, n, after)
    ensures OnceOrNever(l, req, plan, Err(error), n, after)
  {
    assert FailsRetryably(plan(n - 1));
  }

  // ----- keys

  /** Transaction id carries the key. */
  ghost predicate Carries(l: Ledger, id: nat, key: string) {
    exists i | 0 <= i < |l.txns| :: l.txns[i].id == id && l.txns[i].key == Some(key)
  }

  /** Every key record points to the transaction that carries the key. */
  ghost predicate KeysTrue(table: Idempotency.Table, l: Ledger) {
    forall k | k in table :: Carries(l, table[k].txn, k)
  }

  lemma CarriesOn(l: Ledger, m: Ledger, id: nat, key: string)
    requires Evolves(l, m) && Carries(l, id, key)
    ensures Carries(m, id, key)
  {
    var i :| 0 <= i < |l.txns| && l.txns[i].id == id && l.txns[i].key == Some(key);
    assert Descends(l.txns[i], m.txns[i]);
  }

  lemma KeysStayTrue(table: Idempotency.Table, l: Ledger, m: Ledger)
    requires Evolves(l, m) && KeysTrue(table, l)
    ensures KeysTrue(table, m)
  {
    forall k | k in table ensures Carries(m, table[k].txn, k) {
      CarriesOn(l, m, table[k].txn, k);
    }
  }

  lemma CarriedIsThere(l: Ledger, id: nat, key: string)
    requires Carries(l, id, key)
    ensures Position(l.txns, id) >= 0 && !KeyFree(l.txns, Some(key))
  {
  }

  lemma StillCarried(l: Ledger, steps: seq<Step>, id: nat, key: string)
    requires Carries(l, id, key)
    ensures Carries(TryAll(l, steps), id, key) && !KeyFree(TryAll(l, steps).txns, Some(key))
  {
    TryAllEvolves(l, steps);
    CarriesOn(l, TryAll(l, steps), id, key);
    CarriedIsThere(TryAll(l, steps), id, key);
  }

  /** Keys are unique in every ledger the service leaves behind. */
  lemma OneCarrier(l: Ledger, a: nat, b: nat, key: string)
    requires l in REACHABLE && Carries(l, a, key) && Carries(l, b, key)
    ensures a == b
  {
    ReachableIsSound(l);
    var i :| 0 <= i < |l.txns| && l.txns[i].id == a && l.txns[i].key == Some(key);
    var j :| 0 <= j < |l.txns| && l.txns[j].id == b && l.txns[j].key == Some(key);
    assert i == j;
  }

  /** A post that takes effect does what its request asks. */
  lemma PostsAsAsked(l: Ledger, req: PostRequest, a: Attempt)
    requires Validator.Typed(req.entries) && Bound(req.state) && Enabled(l, PostStep(l, req, a))
    ensures AsAsked(l, Apply(l, PostStep(l, req, a)), [req], [a.id], l.clock + a.tick)
  {
    var at := l.clock + a.tick;
    SingleInsert(l, a.id, ToRequest(req), at);
    assert ToRequests([req]) == [ToRequest(req)];
    assert Apply(l, PostStep(l, req, a)).txns == InsertAll(l, [ToRequest(req)], [a.id], at).value.txns;
    InsertedAsAsked(l, [req], [a.id], at, Apply(l, PostStep(l, req, a)));
  }

  lemma CallAsAsked(l: Ledger, req: PostRequest, plan: nat -> Attempt, r: Result<nat, ServiceError>, attempts: nat, after: Ledger)
    requires Validator.Typed(req.entries) && Bound(req.state) && attempts >= 1 && OnceOrNever(l, req, plan, r, attempts, after)
    ensures r.Ok? || after != Seen(l, plan, attempts) ==>
      AsAsked(Seen(l, plan, attempts), after, [req], [plan(attempts - 1).id], PostedAt(l, plan, attempts))
  {
    var seen, a := Seen(l, plan, attempts), plan(attempts - 1);
    if Enabled(seen, PostStep(seen, req, a)) {
      PostsAsAsked(seen, req, a);
    }
  }

  /** A post that takes effect carries its key. */
  lemma PostCarries(l: Ledger, req: PostRequest, a: Attempt)
    requires Validator.Typed(req.entries) && Enabled(l, PostStep(l, req, a)) && req.idempotencyKey.Some?
    ensures Carries(Apply(l, PostStep(l, req, a)), a.id, req.idempotencyKey.value)
  {
    var m := Apply(l, PostStep(l, req, a));
    assert m.txns[|l.txns|].id == a.id;
  }

  /** With a spent key no attempt takes effect. */
  lemma SpentKeyNeverPosts(l: Ledger, req: PostRequest, plan: nat -> Attempt,
      r: Result<nat, ServiceError>, attempts: nat, after: Ledger)
    requires Validator.Typed(req.entries) && attempts >= 1 && OnceOrNever(l, req, plan, r, attempts, after)
    requires !KeyFree(l.txns, req.idempotencyKey)
    ensures r.Err? && after == Seen(l, plan, attempts)
  {
    SeenEvolves(l, plan, attempts);
    SpentKeyEvolves(l, Seen(l, plan, attempts), req.idempotencyKey);
  }

  predicate LiveAt(table: Idempotency.Table, key: string, now: int) {
    key in table && now <= table[key].expiresAt
  }

  /** The idempotency check stops the request: its key has an unexpired record. */
  predicate FindsLive(table: Idempotency.Table, key: Option<string>, now: int) {
    Keyed(key) && LiveAt(table, key.value, now)
  }

  predicate FindsExpired(table: Idempotency.Table, key: Option<string>, now: int) {
    Keyed(key) && key.value in table && now > table[key.value].expiresAt
  }

  predicate Points(table: Idempotency.Table, key: string, record: Idempotency.Record) {
    key in table && table[key] == record
  }

  datatype KeyFaults = KeyFaults(selectFails: bool, deleteFails: bool, recording: Idempotency.RecordFaults)

  const NO_KEY_FAULTS := KeyFaults(false, false, Idempotency.NO_RECORD_FAULTS)

  predicate LookupFails(key: Option<string>, faults: KeyFaults) { Keyed(key) && faults.selectFails }

  /** A key that is new, or expired and deleted, ends up recorded unless the insert fails. */
  predicate Records(faults: KeyFaults) { !faults.deleteFails && !faults.recording.insertFails }

  /** Key-table activity of another client. */
  datatype KeyEvent =
    | Looked(key: string, now: int, faults: KeyFaults)
    | Recorded(key: string, txn: nat, now: int, ttl: int, faults: KeyFaults)

  /** The event leaves a record of key k as it is: no lookup after its expiry, no deletion seen on read-back. */
  predicate Spares(record: Idempotency.Record, k: string, e: KeyEvent) {
    e.key == k ==> if e.Looked? then e.now <= record.expiresAt else !e.faults.recording.rowGone
  }

  predicate Undisturbed(record: Idempotency.Record, k: string, events: seq<KeyEvent>) {
    forall i | 0 <= i < |events| :: Spares(record, k, events[i])
  }

  ghost predicate KeepsUndisturbed(before: Idempotency.Table, after: Idempotency.Table, events: seq<KeyEvent>) {
    forall k | k in before && Undisturbed(before[k], k, events) :: Points(after, k, before[k])
  }

  /** The record a post left for its key is there, unexpired and readable at the later time. */
  ghost predicate StillLive(id: nat, now: int, later: int, ttl: int, key: string, faults: KeyFaults, faults2: KeyFaults,
      events: seq<KeyEvent>)
  {
    && Records(faults)
    && !faults2.selectFails
    && later <= now + ttl
    && Undisturbed(Idempotency.Record(id, now, now + ttl), key, events)
  }

  // ----- batches and reversals

  /** The request passes the checks made before its database transaction. */
  ghost predicate Prepared(table: Idempotency.Table, supported: set<string>, req: PostRequest, now: int) {
    !FindsLive(table, req.idempotencyKey, now) && Validator.Acceptable(supported, ToTransaction(req))
  }

  ghost predicate Unprepared(table: Idempotency.Table, supported: set<string>, reqs: seq<PostRequest>, now: int,
      faults: nat -> KeyFaults)
  {
    exists i: nat | i < |reqs| :: LookupFails(reqs[i].idempotencyKey, faults(i)) || !Prepared(table, supported, reqs[i], now)
  }

  /** No live key record is lost or gained, and no other record gained. */
  ghost predicate LivesOn(before: Idempotency.Table, after: Idempotency.Table, now: int) {
    && (forall k | k in after :: k in before)
    && forall k :: LiveAt(after, k, now) <==> LiveAt(before, k, now)
  }

  /** Keys whose lookup meets no fault are absent once the batch is prepared. */
  ghost predicate KeysAbsent(table: Idempotency.Table, reqs: seq<PostRequest>, faults: nat -> KeyFaults) {
    forall i: nat | i < |reqs| :: AbsentUnlessFaulty(table, reqs[i], faults(i))
  }

  predicate AbsentUnlessFaulty(table: Idempotency.Table, req: PostRequest, faults: KeyFaults) {
    Keyed(req.idempotencyKey) && !faults.deleteFails ==> req.idempotencyKey.value !in table
  }

  /** The first n requests are prepared, and their keys, if looked up without fault, are absent. */
  ghost predicate PreparedUpTo(before: Idempotency.Table, after: Idempotency.Table, supported: set<string>,
      reqs: seq<PostRequest>, n: nat, now: int, faults: nat -> KeyFaults)
    requires n <= |reqs|
  {
    && LivesOn(before, after, now)
    && (forall i | 0 <= i < n :: Prepared(before, supported, reqs[i], now))
    && forall i: nat | i < n :: AbsentUnlessFaulty(after, reqs[i], faults(i))
  }

  lemma OneMorePrepared(before: Idempotency.Table, sofar: Idempotency.Table, after: Idempotency.Table, supported: set<string>,
      reqs: seq<PostRequest>, n: nat, now: int, faults: nat -> KeyFaults)
    requires n < |reqs| && PreparedUpTo(before, sofar, supported, reqs, n, now, faults) && LivesOn(sofar, after, now)
    ensures Prepared(sofar, supported, reqs[n], now) <==> Prepared(before, supported, reqs[n], now)
    ensures Prepared(sofar, supported, reqs[n], now) && AbsentUnlessFaulty(after, reqs[n], faults(n)) ==>
      PreparedUpTo(before, after, supported, reqs, n + 1, now, faults)
  {
    forall i: nat | i < n ensures AbsentUnlessFaulty(after, reqs[i], faults(i)) {
      assert AbsentUnlessFaulty(sofar, reqs[i], faults(i));
    }
  }

  lemma PreparedAreTyped(table: Idempotency.Table, supported: set<string>, reqs: seq<PostRequest>, now: int)
    requires forall i | 0 <= i < |reqs| :: Prepared(table, supported, reqs[i], now)
    ensures AllTyped(reqs)
    ensures forall i | 0 <= i < |reqs| :: WellFormed(ToRequests(reqs)[i])
  {
    forall i | 0 <= i < |reqs| ensures Validator.Typed(reqs[i].entries) && WellFormed(ToRequest(reqs[i])) {
      assert Prepared(table, supported, reqs[i], now);
      AcceptableIsWellFormed(supported, reqs[i]);
    }
  }

  /** The batch, as one step, takes l to after. */
  ghost predicate BatchCommitted(l: Ledger, reqs: seq<PostRequest>, ids: seq<nat>, tick: nat, after: Ledger) {
    AllTyped(reqs) && Transition(l, BatchStep(l, ToRequests(reqs), ids, tick), after) in TAKEN
  }

  /** The batch is no step that l allows. */
  ghost predicate BatchRefused(l: Ledger, reqs: seq<PostRequest>, ids: seq<nat>, tick: nat) {
    AllTyped(reqs) && Refused(l, BatchStep(l, ToRequests(reqs), ids, tick))
  }

  ghost predicate DistinctKeysOf(reqs: seq<PostRequest>) {
    forall i, j | 0 <= i < j < |reqs| && Keyed(reqs[i].idempotencyKey) :: reqs[i].idempotencyKey != reqs[j].idempotencyKey
  }

  ghost predicate AllCarry(l: Ledger, reqs: seq<PostRequest>, ids: seq<nat>)
    requires |ids| == |reqs|
  {
    forall i | 0 <= i < |reqs| && Keyed(reqs[i].idempotencyKey) :: Carries(l, ids[i], reqs[i].idempotencyKey.value)
  }

  lemma BatchInserts(l: Ledger, requests: seq<Request>, ids: seq<nat>, base: int)
    requires Enabled(l, Batch(ids, requests, base))
    ensures |ids| == |requests| && InsertAll(l, requests, ids, base).Some?
    ensures Apply(l, Batch(ids, requests, base)).txns == InsertAll(l, requests, ids, base).value.txns
  {
  }

  ghost predicate BatchRows(l: Ledger, reqs: seq<PostRequest>, ids: seq<nat>, base: int, after: Ledger) {
    && AllTyped(reqs)
    && |ids| == |reqs|
    && InsertAll(l, ToRequests(reqs), ids, base).Some?
    && after.txns == InsertAll(l, ToRequests(reqs), ids, base).value.txns
  }

  lemma BatchExpands(l: Ledger, reqs: seq<PostRequest>, ids: seq<nat>, tick: nat, after: Ledger)
    requires BatchCommitted(l, reqs, ids, tick, after)
    ensures BatchRows(l, reqs, ids, l.clock + tick, after) && 1 <= |reqs| <= 1000
  {
    WhatIsTaken(l, BatchStep(l, ToRequests(reqs), ids, tick), after);
    BatchInserts(l, ToRequests(reqs), ids, l.clock + tick);
  }

  lemma BatchKeysDistinct(l: Ledger, reqs: seq<PostRequest>, ids: seq<nat>, base: int)
    requires AllTyped(reqs) && |ids| == |reqs| && InsertAll(l, ToRequests(reqs), ids, base).Some?
    ensures DistinctKeysOf(reqs)
  {
    var requests := ToRequests(reqs);
    BatchKeysFree(l, requests, ids, base);
    forall i, j | 0 <= i < j < |reqs| && Keyed(reqs[i].idempotencyKey) ensures reqs[i].idempotencyKey != reqs[j].idempotencyKey {
      assert requests[i].key != requests[j].key;
    }
  }

  lemma BatchCarries(l: Ledger, reqs: seq<PostRequest>, ids: seq<nat>, base: int, after: Ledger)
    requires AllTyped(reqs) && |ids| == |reqs| && InsertAll(l, ToRequests(reqs), ids, base).Some?
    requires after.txns == InsertAll(l, ToRequests(reqs), ids, base).value.txns
    ensures AllCarry(after, reqs, ids)
  {
    forall i | 0 <= i < |reqs| && Keyed(reqs[i].idempotencyKey) ensures Carries(after, ids[i], reqs[i].idempotencyKey.value) {
      RowInserted(l, ToRequests(reqs), ids, base, i);
      assert after.txns[|l.txns| + i].id == ids[i];
    }
  }

  /** What follows from the rows of a batch being there: rows and balances as asked, keys distinct and carried. */
  ghost predicate BatchFollows(l: Ledger, reqs: seq<PostRequest>, ids: seq<nat>, base: int, after: Ledger) {
    && AllTyped(reqs)
    && |ids| == |reqs|
    && AsAsked(l, after, reqs, ids, base)
    && DistinctKeysOf(reqs)
    && AllCarry(after, reqs, ids)
  }

  ghost predicate BatchDone(l: Ledger, reqs: seq<PostRequest>, ids: seq<nat>, tick: nat, after: Ledger) {
    && BatchCommitted(l, reqs, ids, tick, after)
    && BatchFollows(l, reqs, ids, l.clock + tick, after)
    && 1 <= |reqs| <= 1000
  }

  lemma BatchParts(l: Ledger, reqs: seq<PostRequest>, ids: seq<nat>, base: int, after: Ledger)
    requires BatchRows(l, reqs, ids, base, after) && forall i | 0 <= i < |reqs| :: Bound(reqs[i].state)
    ensures BatchFollows(l, reqs, ids, base, after)
  {
    InsertedAsAsked(l, reqs, ids, base, after);
    BatchKeysDistinct(l, reqs, ids, base);
    BatchCarries(l, reqs, ids, base, after);
  }

  /** Requests whose recording meets no fault have their key bound to their own transaction. */
  ghost predicate KeysBound(table: Idempotency.Table, reqs: seq<PostRequest>, ids: seq<nat>, now: int, ttl: int,
      faults: nat -> KeyFaults)
    requires |ids| == |reqs|
  {
    forall i: nat | i < |reqs| :: BoundUnlessFaulty(table, reqs[i], Idempotency.Record(ids[i], now, now + ttl), faults(i))
  }

  predicate BoundUnlessFaulty(table: Idempotency.Table, req: PostRequest, record: Idempotency.Record, faults: KeyFaults) {
    Keyed(req.idempotencyKey) && Records(faults) ==> Points(table, req.idempotencyKey.value, record)
  }

  lemma {:induction false} PrefixInserts(l: Ledger, reqs: seq<Request>, ids: seq<nat>, base: int, n: nat)
    requires |ids| == |reqs| && n <= |reqs|
    ensures InsertAll(l, reqs, ids, base).Some? ==> InsertAll(l, reqs[..n], ids[..n], base).Some?
    decreases |reqs|
  {
    if n == |reqs| {
      assert reqs[..n] == reqs && ids[..n] == ids;
    } else {
      var m := |reqs| - 1;
      PrefixInserts(l, reqs[..m], ids[..m], base, n);
      assert reqs[..m][..n] == reqs[..n] && ids[..m][..n] == ids[..n];
    }
  }

  function ValidateReversalEligibility(t: Txn): (r: Option<ServiceError>)
    ensures r.None? <==> Reversible(t)
    ensures r.Some? ==>
      match r.value
      case AlreadyReversed(reversal) => t.reversedBy == Some(reversal)
      case IsReversal(original) => t.reverses == Some(original) && t.reversedBy.None?
      case NotSettled(state) => t.state == state && !state.Settled? && t.reversedBy.None? && t.reverses.None?
      case _ => false
  {
    if t.reversedBy.Some? then Some(AlreadyReversed(t.reversedBy.value))
    else if t.reverses.Some? then Some(IsReversal(t.reverses.value))
    else if !t.state.Settled? then Some(NotSettled(t.state))
    else None
  }

  /** The reversal's entries as the validator sees them. */
  function ToReversal(fetched: seq<Entry>, req: ReversalRequest): Validator.Transaction {
    Validator.Transaction(req.state, Validator.FromEntries(Flipped(fetched)), req.metadata)
  }

  /** The original may be reversed, and its reversal is valid and acceptable. */
  ghost predicate MayReverse(l: Ledger, supported: set<string>, target: nat, order: Order, req: ReversalRequest) {
    var p := Position(l.txns, target);
    && p >= 0
    && Reversible(l.txns[p])
    && Validator.Acceptable(supported, ToReversal(order(l.txns[p].entries), req))
    && Accepts(l, Flipped(order(l.txns[p].entries)))
  }

  /** The reversal is no step that l allows, or its validation fails on its own account. */
  ghost predicate ReversalRefused(l: Ledger, supported: set<string>, target: nat, order: Order, req: ReversalRequest,
      id: nat, tick: nat)
  {
    var p := Position(l.txns, target);
    || Refused(l, ReverseStep(l, target, order, req, id, tick))
    || (p >= 0 && !Validator.Acceptable(supported, ToReversal(order(l.txns[p].entries), req)))
  }

  lemma MayNotReverse(l: Ledger, supported: set<string>, target: nat, order: Order, req: ReversalRequest, id: nat, tick: nat)
    requires Permutes(order) && !MayReverse(l, supported, target, order, req)
    ensures ReversalRefused(l, supported, target, order, req, id, tick)
  {
    RefusedIff(l, ReverseStep(l, target, order, req, id, tick));
  }

  /** What may be reversed is, unless the id or the key is taken. */
  lemma MayReverseMeans(l: Ledger, supported: set<string>, target: nat, order: Order, req: ReversalRequest, id: nat, tick: nat)
    requires Permutes(order) && MayReverse(l, supported, target, order, req)
    requires WellFormed(ReversalOf(order(l.txns[Position(l.txns, target)].entries), req.idempotencyKey, StateOf(req.state)))
    ensures CanInsert(l.txns, id, req.idempotencyKey) ==> Enabled(l, ReverseStep(l, target, order, req, id, tick))
  {
  }

  lemma PositionAfterInsert(l: Ledger, t: Txn, id: nat)
    requires IdFree(l.txns, t.id) && Position(l.txns, id) >= 0
    ensures Position(Insert(l, t).txns, id) == Position(l.txns, id)
  {
    assert (l.txns + [t])[..|l.txns|] == l.txns;
  }

  lemma PositionAfterUpdate(l: Ledger, p: int, u: Txn)
    requires 0 <= p < |l.txns| && DistinctIds(l.txns) && u.id == l.txns[p].id
    ensures Position(Replace(l, p, u).txns, u.id) == p
  {
    var now := Replace(l, p, u).txns;
    assert now[p].id == u.id;
    forall j | 0 <= j < |now| && j != p ensures now[j].id != u.id {
      assert now[j] == l.txns[j];
    }
  }

  lemma InsertKeepsIds(l: Ledger, t: Txn)
    requires l in REACHABLE && IdFree(l.txns, t.id)
    ensures DistinctIds(l.txns) && DistinctIds(Insert(l, t).txns)
  {
    ReachableIsSound(l);
  }

  lemma ReversesAsAsked(l: Ledger, target: nat, order: Order, req: ReversalRequest, id: nat, tick: nat)
    requires Enabled(l, ReverseStep(l, target, order, req, id, tick)) && Bound(req.state)
    ensures ReversedAsAsked(l, Apply(l, ReverseStep(l, target, order, req, id, tick)), target, req, id, l.clock + tick)
  {
    var step := ReverseStep(l, target, order, req, id, tick);
    var p := Position(l.txns, target);
    var t := MakeTxn(id, ReversalOf(step.fetched, step.key, step.state), Some(target), step.at);
    var u := l.txns[p].(reversedBy := Some(id));
    var after := Apply(l, step);
    assert after.txns == (l.txns + [t])[p := u] && after.txns[..|l.txns|] == l.txns[p := u];
    FlippedNegates(step.fetched);
    OrderDoesNotMatter(l.txns[p].entries, step.fetched);
    forall k: Key
      ensures SettledOn(after.txns, k) == SettledOn(l.txns, k) - (if req.state == "settled" then Impact(l.txns[p].entries, k) else 0)
      ensures PendingOn(after.txns, k) == PendingOn(l.txns, k) - (if req.state == "pending" then Impact(l.txns[p].entries, k) else 0)
    {
      RowMoves(l.txns, t, k);
      LinkMovesNothing(l.txns + [t], p, u, k);
    }
  }

  /** The reversal took effect, as asked. */
  ghost predicate ReversalDone(l: Ledger, target: nat, order: Order, req: ReversalRequest, id: nat, tick: nat, after: Ledger) {
    && Transition(l, ReverseStep(l, target, order, req, id, tick), after) in TAKEN
    && ReversedAsAsked(l, after, target, req, id, l.clock + tick)
  }

  lemma ReverseCarries(l: Ledger, target: nat, order: Order, req: ReversalRequest, id: nat, tick: nat)
    requires Enabled(l, ReverseStep(l, target, order, req, id, tick)) && req.idempotencyKey.Some?
    ensures Carries(Apply(l, ReverseStep(l, target, order, req, id, tick)), id, req.idempotencyKey.value)
  {
    var m := Apply(l, ReverseStep(l, target, order, req, id, tick));
    assert m.txns[|l.txns|].id == id && m.txns[|l.txns|].key == req.idempotencyKey;
  }

  lemma ReversalFollows(l: Ledger, target: nat, order: Order, req: ReversalRequest, id: nat, tick: nat, after: Ledger)
    requires Bound(req.state) && Transition(l, ReverseStep(l, target, order, req, id, tick), after) in TAKEN
    ensures ReversedAsAsked(l, after, target, req, id, l.clock + tick)
    ensures Keyed(req.idempotencyKey) ==> Carries(after, id, req.idempotencyKey.value)
  {
    WhatIsTaken(l, ReverseStep(l, target, order, req, id, tick), after);
    ReversesAsAsked(l, target, order, req, id, tick);
    if req.idempotencyKey.Some? {
      ReverseCarries(l, target, order, req, id, tick);
    }
  }
}

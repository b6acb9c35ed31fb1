/**
 * The transaction processor: post with idempotency and retry, batch, settle, cancel, reverse. Each
 * operation applies exactly one step of the ledger machine or leaves the ledger as it was; it reports
 * success only if the step was applied, and failure after applying it only if the reply to the commit
 * was lost.
 */
module Processor {
  import opened Base
  import opened Ledger
  import opened Machine
  import opened Store
  import opened Guard
  import opened Service
  import opened Evolution
  import opened Structure
  import opened KeyProjection
  import Decimals
  import Validator
  import Retry
  import Idempotency

  class PostgresTransactionProcessor {
    const db: Database
    const keys: Idempotency.IdempotencyRepository
    const validator: Validator.TransactionValidator

    /** Rows left by a legal run, and key records that are true of them. */
    ghost predicate Valid()
      reads this, db, keys
    {
      db.Valid() && KeysTrue(keys.table, db.ledger)
    }

    constructor (db: Database, keys: Idempotency.IdempotencyRepository, validator: Validator.TransactionValidator)
      ensures this.db == db && this.keys == keys && this.validator == validator
    {
      this.db, this.keys, this.validator := db, keys, validator;
    }

    // ----- one attempt

    /** Header and entry rows of one transaction; on a unique violation nothing is left to keep. */
    method InsertRows(t: Txn) returns (failure: Option<Retry.Failure>)
      requires t.reversedBy.None?
      modifies db`ledger
      ensures failure == if CanInsert(old(db.ledger).txns, t.id, t.key) then None else Some(UNIQUE_VIOLATION)
      ensures db.ledger == if failure.Some? then old(db.ledger) else Insert(old(db.ledger), t)
    {
      ghost var before := db.ledger;
      failure := db.InsertTransaction(t.id, t.key, t.state, t.postedAt, t.settledAt, t.reverses);
      if failure.None? {
        var header := t.(entries := []);
        assert db.ledger == Insert(before, header);
        assert Position(db.ledger.txns, t.id) == |before.txns|;
        db.InsertEntries(t.id, t.entries);
        assert [] + t.entries == t.entries;
        assert WithEntries(Insert(before, header), |before.txns|, t.entries) == Insert(before, t);
      }
    }

    /** The checks of one attempt; a fault before the first write ends it here. */
    method CheckPost(req: PostRequest, a: Attempt) returns (rejected: Option<ServiceError>)
      requires Validator.Typed(req.entries) && WellFormed(ToRequest(req))
      ensures rejected.None? <==> Accepts(db.ledger, ToRequest(req).entries) && !(a.fault.Fault? && EarlyStage(a.fault.stage))
      ensures rejected.Some? && IsRetryable(rejected.value) ==> FailsRetryably(a)
      ensures rejected.Some? && Accepts(db.ledger, ToRequest(req).entries) && !a.fault.stage.AtAccountRead? ==>
        rejected.value == Database(a.fault.failure)
    {
      if a.fault.Fault? && a.fault.stage in {AtBegin, AtBalanceRead} {
        return Some(Database(a.fault.failure));
      }
      if a.fault.Fault? && a.fault.stage.AtAccountRead? {
        return Some(AccountNotFound(""));
      }
      var es := Validator.ToEntries(req.entries);
      assert es[0] in es;
      var failing := if a.fault.Fault? && a.fault.stage.AtLock? then set e | e in es :: e.account else {};
      rejected := ValidateAccountsForPost(db.ledger, es, true, failing);
      if rejected.Some? {
        if rejected.value.LockFailed? && a.fault.Fault? {
          rejected := Some(Database(a.fault.failure));
        } else if Explains(db.ledger, es, rejected.value) {
          ExplainedIsRejected(db.ledger, es, rejected.value);
        }
      }
    }

    /**
     * One atomic post attempt. The event goes out before the commit; a failure up to the commit rolls
     * everything back, a lost reply does not.
     */
    method ExecutePostTransaction(req: PostRequest, a: Attempt) returns (r: Result<nat, ServiceError>)
      requires db.Valid() && Validator.Typed(req.entries) && WellFormed(ToRequest(req))
      modifies db
      ensures db.Valid()
      ensures Attempted(old(db.ledger), req, a, r, db.ledger) && Reported(old(db.ledger), req, a, r)
      ensures db.ledger != old(db.ledger) ==> db.published == old(db.published) + [a.id]
      ensures db.published == old(db.published) || db.published == old(db.published) + [a.id]
      ensures r.Err? && IsRetryable(r.error) ==> FailsRetryably(a)
    {
      var saved := db.ledger;
      var rejected := CheckPost(req, a);
      if rejected.Some? {
        return Err(rejected.value);
      }
      if a.fault.Fault? && a.fault.stage.AtWrite? {
        return Err(Database(a.fault.failure));
      }
      var postedAt := db.ledger.clock + a.tick;
      var failure := InsertRows(MakeTxn(a.id, ToRequest(req), None, postedAt));
      if failure.Some? {
        return Err(Database(failure.value));
      }
      if a.fault.Fault? && a.fault.stage.AtPublish? {
        db.ledger := saved;
        return Err(Database(a.fault.failure));
      }
      db.Publish(a.id);
      if a.fault.Fault? {
        db.ledger := saved;
        return Err(Database(a.fault.failure));
      }
      StaysReachable(saved, PostStep(saved, req, a));
      db.ledger := db.ledger.(clock := postedAt);
      return if a.fault.ReplyLost? then Err(Database(LOST)) else Ok(a.id);
    }

    // ----- keys

    /** The transactions a key record may refer to. */
    function CommittedIds(): set<nat>
      reads this, db
    {
      set i | 0 <= i < |db.ledger.txns| :: db.ledger.txns[i].id
    }

    /** A key not in the table is bound to the transaction; one already there is never rebound. */
    method Record(key: Option<string>, id: nat, now: int, ttl: int, faults: Idempotency.RecordFaults)
      requires Valid() && (Keyed(key) ==> Carries(db.ledger, id, key.value))
      modifies keys
      ensures Valid()
      ensures !Keyed(key) || faults.insertFails ==> keys.table == old(keys.table)
      ensures Keyed(key) && !faults.insertFails ==>
        keys.table == if key.value !in old(keys.table) then old(keys.table)[key.value := Idempotency.Record(id, now, now + ttl)]
                      else if faults.rowGone then old(keys.table) - {key.value} else old(keys.table)
    {
      if key.Some? && key.value != "" {
        CarriedIsThere(db.ledger, id, key.value);
        assert id in CommittedIds();
        var ignored := keys.RecordSuccess(key.value, id, now, ttl, CommittedIds(), faults);
      }
    }

    /** CheckAndReserve as every keyed operation begins: Some ends the operation with that answer. */
    method CheckKey(key: Option<string>, now: int, faults: KeyFaults) returns (answer: Option<Result<nat, ServiceError>>)
      requires Valid()
      modifies keys
      ensures Valid()
      ensures answer.Some? <==> Keyed(key) && (faults.selectFails || FindsLive(old(keys.table), key, now))
      ensures answer.Some? && faults.selectFails ==> answer.value.Err?
      ensures answer.Some? && !faults.selectFails ==>
        answer.value == Ok(old(keys.table)[key.value].txn) && Carries(db.ledger, answer.value.value, key.value)
      ensures keys.table == if FindsExpired(old(keys.table), key, now) && !faults.selectFails && !faults.deleteFails
        then old(keys.table) - {key.value} else old(keys.table)
    {
      if key.Some? && key.value != "" {
        var checked := keys.CheckAndReserve(key.value, now, faults.selectFails, faults.deleteFails);
        if checked.Err? {
          return Some(Err(KeyStore(checked.error)));
        }
        if checked.value.Exists? {
          var existing := checked.value.record.txn;
          CarriedIsThere(db.ledger, existing, key.value);
          return Some(if Position(db.ledger.txns, existing) < 0 then Err(TransactionNotFound(existing)) else Ok(existing));
        }
      }
      return None;
    }

    /** The idempotency check and the validator for one request; Some ends it with that answer. */
    method PrepareOne(req: PostRequest, now: int, faults: KeyFaults) returns (answer: Option<Result<nat, ServiceError>>)
      requires Valid()
      modifies keys
      ensures Valid() && LivesOn(old(keys.table), keys.table, now)
      ensures answer.None? <==>
        Prepared(old(keys.table), validator.Supported(), req, now) && !LookupFails(req.idempotencyKey, faults)
      ensures answer.None? ==> AbsentUnlessFaulty(keys.table, req, faults) && Validator.Typed(req.entries) && WellFormed(ToRequest(req))
      ensures answer.Some? && answer.value.Ok? ==>
        && FindsLive(old(keys.table), req.idempotencyKey, now) && !faults.selectFails
        && Carries(db.ledger, answer.value.value, req.idempotencyKey.value)
      ensures FindsLive(old(keys.table), req.idempotencyKey, now) && !faults.selectFails ==>
        answer == Some(Ok(old(keys.table)[req.idempotencyKey.value].txn))
      ensures req.idempotencyKey.None? || req.idempotencyKey.value == "" ==> keys.table == old(keys.table)
    {
      answer := CheckKey(req.idempotencyKey, now, faults);
      if answer.None? {
        var invalid := validator.ValidateTransaction(ToTransaction(req));
        if invalid.Some? {
          return Some(Err(Invalid(invalid.value)));
        }
        AcceptableIsWellFormed(validator.Supported(), req);
      }
    }

    /**
     * What other clients do to the ledger and the key table; they too record keys only for the
     * transactions that carry them.
     */
    method Meanwhile(steps: seq<Step>, events: seq<KeyEvent>)
      requires Valid()
      modifies db`ledger, keys
      ensures Valid() && db.ledger == TryAll(old(db.ledger), steps)
      ensures KeepsUndisturbed(old(keys.table), keys.table, events)
    {
      TryAllEvolves(db.ledger, steps);
      KeysStayTrue(keys.table, db.ledger, TryAll(db.ledger, steps));
      db.Interfere(steps);
      for i := 0 to |events|
        modifies keys
        invariant Valid()
        invariant KeepsUndisturbed(old(keys.table), keys.table, events)
      {
        Disturb(events[i]);
      }
    }

    method Disturb(e: KeyEvent)
      requires Valid()
      modifies keys
      ensures Valid()
      ensures forall k | k in old(keys.table) && Spares(old(keys.table)[k], k, e) :: Points(keys.table, k, old(keys.table)[k])
    {
      if e.Looked? {
        var ignored := keys.CheckAndReserve(e.key, e.now, e.faults.selectFails, e.faults.deleteFails);
      } else {
        var p := Position(db.ledger.txns, e.txn);
        if p >= 0 && db.ledger.txns[p].key == Some(e.key) {
          Record(Some(e.key), e.txn, e.now, e.ttl, e.faults.recording);
        }
      }
    }

    // ----- post

    /** Other clients' steps, then one attempt. */
    method Try(req: PostRequest, a: Attempt) returns (r: Result<nat, ServiceError>)
      requires db.Valid() && Validator.Typed(req.entries) && WellFormed(ToRequest(req))
      modifies db
      ensures db.Valid()
      ensures Attempted(TryAll(old(db.ledger), a.interference), req, a, r, db.ledger)
      ensures Reported(TryAll(old(db.ledger), a.interference), req, a, r)
      ensures r.Ok? ==> a.id in db.published
      ensures r.Err? && IsRetryable(r.error) ==> FailsRetryably(a)
    {
      db.Interfere(a.interference);
      ghost var now := db.ledger;
      r := ExecutePostTransaction(req, a);
      if r.Ok? {
        assert |db.ledger.txns| == |now.txns| + 1;
      }
    }

    /** The retry loop around the attempts; only serialization failures and deadlocks are tried again. */
    method PostWithRetry(req: PostRequest, plan: nat -> Attempt) returns (r: Result<nat, ServiceError>, attempts: nat)
      requires db.Valid() && Validator.Typed(req.entries) && WellFormed(ToRequest(req))
      modifies db
      ensures db.Valid() && attempts >= 1
      ensures OnceOrNever(old(db.ledger), req, plan, r, attempts, db.ledger)
      ensures Persists(old(db.ledger), req, plan, attempts)
      ensures r.Ok? ==> r.value in db.published
    {
      ghost var start := db.ledger;
      var last := UNIQUE_VIOLATION;
      attempts := 0;
      while attempts <= Retry.DEFAULT.maxRetries
        invariant attempts <= Retry.DEFAULT.maxRetries + 1
        invariant db.Valid()
        invariant AllFailed(start, plan, attempts, db.ledger)
      {
        if attempts > 0 && plan(attempts).interrupted {
          GaveUp(start, req, plan, attempts, ContextDone, db.ledger);
          return Err(ContextDone), attempts;
        }
        ghost var before := db.ledger;
        r := Try(req, plan(attempts));
        OneMoreAttempt(start, req, plan, attempts, before, r, db.ledger);
        attempts := attempts + 1;
        if r.Ok? || !IsRetryable(r.error) {
          return;
        }
        last := r.error.failure;
      }
      GaveUp(start, req, plan, attempts, RetriesExhausted(last), db.ledger);
      return Err(RetriesExhausted(last)), attempts;
    }

    /**
     * Post with idempotency check, validation and retries. A live key returns its transaction and
     * posts nothing; a key any row carries never posts again, live or not; otherwise the call takes
     * effect at most once, by its last attempt. Success always names the transaction with the key.
     */
    method PostTransaction(req: PostRequest, plan: nat -> Attempt, now: int, ttl: int, keyFaults: KeyFaults)
        returns (r: Result<nat, ServiceError>, attempts: nat)
      requires Valid() && Bound(req.state)
      modifies db, keys
      ensures Valid()
      ensures FindsLive(old(keys.table), req.idempotencyKey, now) && !keyFaults.selectFails ==>
        attempts == 0 && r == Ok(old(keys.table)[req.idempotencyKey.value].txn)
      ensures attempts == 0 ==> db.ledger == old(db.ledger)
      ensures attempts == 0 && r.Ok? ==> FindsLive(old(keys.table), req.idempotencyKey, now) && !keyFaults.selectFails
      ensures attempts > 0 <==>
        Prepared(old(keys.table), validator.Supported(), req, now) && !LookupFails(req.idempotencyKey, keyFaults)
      ensures attempts > 0 ==> PostOutcome(old(db.ledger), req, plan, r, attempts, db.ledger)
      ensures attempts > 0 && r.Ok? ==> r.value in db.published
      ensures attempts > 0 && !KeyFree(old(db.ledger).txns, req.idempotencyKey) ==>
        r.Err? && db.ledger == Seen(old(db.ledger), plan, attempts)
      ensures r.Ok? && Keyed(req.idempotencyKey) ==> Carries(db.ledger, r.value, req.idempotencyKey.value)
      ensures req.idempotencyKey.None? || req.idempotencyKey.value == "" ==> keys.table == old(keys.table)
      ensures attempts > 0 && r.Ok? && Keyed(req.idempotencyKey) && Records(keyFaults) ==>
        Points(keys.table, req.idempotencyKey.value, Idempotency.Record(r.value, now, now + ttl))
    {
      var answer := PrepareOne(req, now, keyFaults);
      if answer.Some? {
        return answer.value, 0;
      }
      r, attempts := PostChecked(req, plan);
      if r.Ok? {
        Record(req.idempotencyKey, r.value, now, ttl, keyFaults.recording);
      }
    }

    /** The post proper, with what it means for keys. */
    method PostChecked(req: PostRequest, plan: nat -> Attempt) returns (r: Result<nat, ServiceError>, attempts: nat)
      requires Valid() && Bound(req.state) && Validator.Typed(req.entries) && WellFormed(ToRequest(req))
      modifies db
      ensures Valid() && PostOutcome(old(db.ledger), req, plan, r, attempts, db.ledger)
      ensures r.Ok? ==> r.value in db.published
      ensures !KeyFree(old(db.ledger).txns, req.idempotencyKey) ==> r.Err? && db.ledger == Seen(old(db.ledger), plan, attempts)
      ensures r.Ok? && Keyed(req.idempotencyKey) ==> Carries(db.ledger, r.value, req.idempotencyKey.value)
    {
      ghost var start := db.ledger;
      r, attempts := PostWithRetry(req, plan);
      ghost var a, seen := plan(attempts - 1), Seen(start, plan, attempts);
      SeenEvolves(start, plan, attempts);
      CommittedEvolves(seen, PostStep(seen, req, a), a.fault);
      EvolvesTransitive(start, seen, db.ledger);
      KeysStayTrue(keys.table, start, db.ledger);
      if !KeyFree(start.txns, req.idempotencyKey) {
        SpentKeyNeverPosts(start, req, plan, r, attempts, db.ledger);
      }
      PostComesTo(start, req, plan, r, attempts, db.ledger);
      if r.Ok? && req.idempotencyKey.Some? {
        PostCarries(seen, req, a);
      }
    }

    /**
     * A keyed post that went through, sent again at any time, whatever others and the faults do in
     * between: the second call posts nothing, and if it succeeds it names the same transaction. It does
     * succeed while the record is live, undisturbed and readable.
     */
    method PostTwice(first: PostRequest, again: PostRequest, plan: nat -> Attempt, plan2: nat -> Attempt,
        now: int, later: int, ttl: int, faults: KeyFaults, faults2: KeyFaults, steps: seq<Step>, events: seq<KeyEvent>)
        returns (r: Result<nat, ServiceError>, attempts: nat, r2: Result<nat, ServiceError>, attempts2: nat)
      requires Valid() && Bound(first.state) && Bound(again.state)
      requires Keyed(first.idempotencyKey) && again.idempotencyKey == first.idempotencyKey
      modifies db, keys
      ensures Valid()
      ensures r.Ok? && r2.Ok? ==> r2 == r && attempts2 == 0
      ensures r.Ok? && attempts > 0 && StillLive(r.value, now, later, ttl, first.idempotencyKey.value, faults, faults2, events) ==>
        r2 == r
    {
      ghost var key := first.idempotencyKey.value;
      r, attempts := PostTransaction(first, plan, now, ttl, faults);
      if r.Ok? {
        StillCarried(db.ledger, steps, r.value, key);
      }
      Meanwhile(steps, events);
      ghost var middle := db.ledger;
      r2, attempts2 := PostTransaction(again, plan2, later, ttl, faults2);
      if r.Ok? && r2.Ok? {
        OneCarrier(middle, r.value, r2.value, key);
      }
    }

    // ----- batch

    /** All requests, one by one, before the transaction begins. */
    method PrepareBatch(reqs: seq<PostRequest>, now: int, keyFaults: nat -> KeyFaults) returns (r: Option<ServiceError>)
      requires Valid()
      modifies keys
      ensures Valid()
      ensures r.None? ==> forall i | 0 <= i < |reqs| :: Prepared(old(keys.table), validator.Supported(), reqs[i], now)
      ensures r.None? ==> KeysAbsent(keys.table, reqs, keyFaults)
      ensures r.None? ==> AllTyped(reqs) && forall i | 0 <= i < |reqs| :: WellFormed(ToRequests(reqs)[i])
      ensures r.Some? ==> Unprepared(old(keys.table), validator.Supported(), reqs, now, keyFaults)
    {
      ghost var before, supported := keys.table, validator.Supported();
      for i := 0 to |reqs|
        modifies keys
        invariant Valid() && PreparedUpTo(before, keys.table, supported, reqs, i, now, keyFaults)
      {
        ghost var sofar := keys.table;
        var answer := PrepareOne(reqs[i], now, keyFaults(i));
        OneMorePrepared(before, sofar, keys.table, supported, reqs, i, now, keyFaults);
        if answer.Some? {
          return Some(if answer.value.Ok? then KeyExists(answer.value.value) else answer.value.error);
        }
      }
      PreparedAreTyped(before, supported, reqs, now);
      return None;
    }

    /** Every request against the ledger as it is before the batch. */
    method CheckBatch(requests: seq<Request>) returns (rejected: Option<ServiceError>)
      ensures rejected.None? <==> forall j | 0 <= j < |requests| :: Accepts(db.ledger, requests[j].entries)
    {
      for i := 0 to |requests|
        invariant forall j | 0 <= j < i :: Accepts(db.ledger, requests[j].entries)
      {
        rejected := ValidateAccountsForPost(db.ledger, requests[i].entries, false, {});
        if rejected.Some? {
          return;
        }
      }
      return None;
    }

    /** Insert all requests, or stop at the first unique violation. */
    method InsertBatch(requests: seq<Request>, ids: seq<nat>, baseTime: int) returns (failure: Option<Retry.Failure>)
      requires |ids| == |requests|
      modifies db`ledger
      ensures failure.None? <==> InsertAll(old(db.ledger), requests, ids, baseTime).Some?
      ensures failure.None? ==> db.ledger == InsertAll(old(db.ledger), requests, ids, baseTime).value
    {
      ghost var saved := db.ledger;
      for i := 0 to |requests|
        invariant InsertAll(saved, requests[..i], ids[..i], baseTime).Some?
        invariant db.ledger == InsertAll(saved, requests[..i], ids[..i], baseTime).value
      {
        assert requests[..i + 1][..i] == requests[..i] && ids[..i + 1][..i] == ids[..i];
        failure := InsertRows(MakeTxn(ids[i], requests[i], None, baseTime + i));
        if failure.Some? {
          PrefixInserts(saved, requests, ids, baseTime, i + 1);
          return;
        }
      }
      assert requests[..|requests|] == requests && ids[..|requests|] == ids;
      return None;
    }

    method PublishAll(ids: seq<nat>)
      modifies db`published
      ensures db.published == old(db.published) + ids
    {
      for i := 0 to |ids|
        invariant db.published == old(db.published) + ids[..i]
      {
        db.Publish(ids[i]);
        assert ids[..i + 1] == ids[..i] + [ids[i]];
      }
      assert ids[..|ids|] == ids;
    }

    /** The database transaction of a batch: check all, insert all, publish all, commit. */
    method CommitBatch(requests: seq<Request>, ids: seq<nat>, tick: nat, fault: Fault) returns (failed: Option<ServiceError>)
      requires db.Valid() && |ids| == |requests| && 1 <= |requests| <= MAX_BATCH
      requires forall i | 0 <= i < |requests| :: WellFormed(requests[i])
      modifies db
      ensures db.Valid()
      ensures failed.None? ==>
        fault.NoFault? && Transition(old(db.ledger), BatchStep(old(db.ledger), requests, ids, tick), db.ledger) in TAKEN
      ensures failed.Some? ==> NoTrace(old(db.ledger), BatchStep(old(db.ledger), requests, ids, tick), fault, db.ledger)
      ensures failed.Some? && fault.NoFault? ==> Refused(old(db.ledger), BatchStep(old(db.ledger), requests, ids, tick))
      ensures fault.ReplyLost? && db.ledger == old(db.ledger) ==> Refused(old(db.ledger), BatchStep(old(db.ledger), requests, ids, tick))
      ensures db.ledger != old(db.ledger) ==> db.published == old(db.published) + ids
    {
      if fault.Fault? && fault.stage !in {AtWrite, AtPublish, AtCommit} {
        return Some(Database(fault.failure));
      }
      var saved := db.ledger;
      var baseTime := saved.clock + tick;
      RefusedIff(saved, Batch(ids, requests, baseTime));
      failed := CheckBatch(requests);
      if failed.Some? {
        return;
      }
      var failure := InsertBatch(requests, ids, baseTime);
      if failure.Some? || (fault.Fault? && fault.stage !in {AtCommit}) {
        db.ledger := saved;
        return Some(Database(if failure.Some? then failure.value else fault.failure));
      }
      PublishAll(ids);
      if fault.Fault? {
        db.ledger := saved;
        return Some(Database(fault.failure));
      }
      StaysReachable(saved, Batch(ids, requests, baseTime));
      db.ledger := db.ledger.(clock := baseTime);
      WhatIsTaken(saved, Batch(ids, requests, baseTime), db.ledger);
      assert |db.ledger.txns| == |saved.txns| + |requests|;
      return if fault.ReplyLost? then Some(Database(LOST)) else None;
    }

    /** Key records after the commit; failures are only logged. */
    method RecordAll(reqs: seq<PostRequest>, ids: seq<nat>, now: int, ttl: int, keyFaults: nat -> KeyFaults)
      requires Valid() && |ids| == |reqs|
      requires DistinctKeysOf(reqs) && AllCarry(db.ledger, reqs, ids) && KeysAbsent(keys.table, reqs, keyFaults)
      modifies keys
      ensures Valid()
      ensures KeysBound(keys.table, reqs, ids, now, ttl, keyFaults)
    {
      for i := 0 to |reqs|
        modifies keys
        invariant Valid()
        invariant forall j: nat | j < i ::
          BoundUnlessFaulty(keys.table, reqs[j], Idempotency.Record(ids[j], now, now + ttl), keyFaults(j))
        invariant forall j: nat | i <= j < |reqs| :: AbsentUnlessFaulty(keys.table, reqs[j], keyFaults(j))
      {
        Record(reqs[i].idempotencyKey, ids[i], now, ttl, keyFaults(i).recording);
      }
    }

    /** The batch proper, with what it means for rows, balances and keys. */
    method PostPrepared(reqs: seq<PostRequest>, ids: seq<nat>, tick: nat, fault: Fault) returns (failed: Option<ServiceError>)
      requires Valid() && |ids| == |reqs| && 1 <= |reqs| <= MAX_BATCH && AllTyped(reqs)
      requires forall i | 0 <= i < |reqs| :: Bound(reqs[i].state) && WellFormed(ToRequests(reqs)[i])
      modifies db
      ensures Valid()
      ensures failed.None? ==> BatchDone(old(db.ledger), reqs, ids, tick, db.ledger)
      ensures failed.Some? ==>
        || db.ledger == old(db.ledger)
        || (fault.ReplyLost? && BatchDone(old(db.ledger), reqs, ids, tick, db.ledger))
      ensures failed.Some? && fault.NoFault? ==> BatchRefused(old(db.ledger), reqs, ids, tick)
      ensures db.ledger != old(db.ledger) ==> db.published == old(db.published) + ids
    {
      ghost var saved := db.ledger;
      failed := CommitBatch(ToRequests(reqs), ids, tick, fault);
      if db.ledger != saved || failed.None? {
        TakenEvolves(saved, BatchStep(saved, ToRequests(reqs), ids, tick), db.ledger);
        KeysStayTrue(keys.table, saved, db.ledger);
        BatchExpands(saved, reqs, ids, tick, db.ledger);
        BatchParts(saved, reqs, ids, saved.clock + tick, db.ledger);
      }
    }

    /**
     * All requests are checked against the ledger before the batch, then all are inserted, request i
     * posted i microseconds after the base time; all of it commits or nothing, and each key is then
     * bound to the transaction of its own request.
     */
    method PostBatch(reqs: seq<PostRequest>, ids: seq<nat>, tick: nat, fault: Fault, now: int, ttl: int,
        keyFaults: nat -> KeyFaults)
        returns (r: Result<seq<nat>, ServiceError>)
      requires Valid() && |ids| == |reqs| && forall i | 0 <= i < |reqs| :: Bound(reqs[i].state)
      modifies db, keys
      ensures Valid()
      ensures r.Ok? ==> r.value == ids && BatchDone(old(db.ledger), reqs, ids, tick, db.ledger)
      ensures r.Ok? ==> forall i | 0 <= i < |reqs| :: Prepared(old(keys.table), validator.Supported(), reqs[i], now)
      ensures r.Ok? ==> KeysBound(keys.table, reqs, ids, now, ttl, keyFaults)
      ensures r.Err? ==>
        || db.ledger == old(db.ledger)
        || (fault.ReplyLost? && BatchDone(old(db.ledger), reqs, ids, tick, db.ledger))
      ensures db.ledger != old(db.ledger) ==> db.published == old(db.published) + ids
      ensures r.Err? && fault.NoFault? ==>
        || |reqs| == 0
        || |reqs| > 1000
        || Unprepared(old(keys.table), validator.Supported(), reqs, now, keyFaults)
        || BatchRefused(old(db.ledger), reqs, ids, tick)
    {
      if |reqs| == 0 {
        return Err(BatchEmpty);
      }
      if |reqs| > MAX_BATCH {
        return Err(BatchTooLarge(|reqs|));
      }
      var unprepared := PrepareBatch(reqs, now, keyFaults);
      if unprepared.Some? {
        return Err(unprepared.value);
      }
      var failed := PostPrepared(reqs, ids, tick, fault);
      if failed.Some? {
        return Err(failed.value);
      }
      RecordAll(reqs, ids, now, ttl, keyFaults);
      return Ok(ids);
    }

    // ----- settle and cancel

    method SettlePendingTransaction(target: nat, at: int, order: Order, fault: Fault) returns (r: Result<Txn, ServiceError>)
      requires db.Valid()
      modifies db
      ensures db.Valid()
      ensures r.Ok? <==> fault.NoFault? && Enabled(old(db.ledger), Settle(target, at))
      ensures db.ledger == Committed(old(db.ledger), Settle(target, at), fault)
      ensures db.ledger != old(db.ledger) ==> db.published == old(db.published) + [target]
      ensures r.Ok? ==>
        var p := Position(db.ledger.txns, target);
        && p >= 0
        && r.value == db.ledger.txns[p].(entries := order(db.ledger.txns[p].entries))
        && r.value.state.Settled? && r.value.settledAt == Some(at)
      ensures r.Err? && r.error.NotPending? ==>
        var p := Position(old(db.ledger).txns, target); p >= 0 && old(db.ledger).txns[p].state == r.error.state
    {
      if fault.Fault? && fault.stage !in {AtWrite, AtPublish, AtCommit} {
        return Err(Database(fault.failure));
      }
      var saved := db.ledger;
      var p := Position(saved.txns, target);
      if p < 0 {
        return Err(TransactionNotFound(target));
      }
      if !saved.txns[p].state.Pending? {
        return Err(NotPending(saved.txns[p].state));
      }
      if fault.Fault? && fault.stage.AtWrite? {
        return Err(Database(fault.failure));
      }
      ReachableIsSound(saved);
      db.UpdateTransactionSettled(target, at);
      OneRowUpdated(saved, db.ledger, p, target);
      assert db.ledger == Settling(saved, p, at);
      PositionAfterUpdate(saved, p, db.ledger.txns[p]);
      var updated := db.ledger.txns[p].(entries := order(db.ledger.txns[p].entries));
      if fault.Fault? && fault.stage.AtPublish? {
        db.ledger := saved;
        return Err(Database(fault.failure));
      }
      db.Publish(target);
      if fault.Fault? {
        db.ledger := saved;
        return Err(Database(fault.failure));
      }
      StaysReachable(saved, Settle(target, at));
      return if fault.ReplyLost? then Err(Database(LOST)) else Ok(updated);
    }

    method CancelPendingTransaction(target: nat, order: Order, fault: Fault) returns (r: Result<Txn, ServiceError>)
      requires db.Valid()
      modifies db
      ensures db.Valid()
      ensures r.Ok? <==> fault.NoFault? && Enabled(old(db.ledger), Cancel(target))
      ensures db.ledger == Committed(old(db.ledger), Cancel(target), fault)
      ensures db.ledger != old(db.ledger) ==> db.published == old(db.published) + [target]
      ensures r.Ok? ==>
        var p := Position(db.ledger.txns, target);
        && p >= 0
        && r.value == db.ledger.txns[p].(entries := order(db.ledger.txns[p].entries))
        && r.value.state.Cancelled?
      ensures r.Err? && r.error.NotPending? ==>
        var p := Position(old(db.ledger).txns, target); p >= 0 && old(db.ledger).txns[p].state == r.error.state
    {
      if fault.Fault? && fault.stage !in {AtWrite, AtPublish, AtCommit} {
        return Err(Database(fault.failure));
      }
      var saved := db.ledger;
      var p := Position(saved.txns, target);
      if p < 0 {
        return Err(TransactionNotFound(target));
      }
      if !saved.txns[p].state.Pending? {
        return Err(NotPending(saved.txns[p].state));
      }
      if fault.Fault? && fault.stage.AtWrite? {
        return Err(Database(fault.failure));
      }
      ReachableIsSound(saved);
      db.UpdateTransactionCancelled(target);
      OneRowUpdated(saved, db.ledger, p, target);
      assert db.ledger == Cancelling(saved, p);
      PositionAfterUpdate(saved, p, db.ledger.txns[p]);
      var updated := db.ledger.txns[p].(entries := order(db.ledger.txns[p].entries));
      if fault.Fault? && fault.stage.AtPublish? {
        db.ledger := saved;
        return Err(Database(fault.failure));
      }
      db.Publish(target);
      if fault.Fault? {
        db.ledger := saved;
        return Err(Database(fault.failure));
      }
      StaysReachable(saved, Cancel(target));
      return if fault.ReplyLost? then Err(Database(LOST)) else Ok(updated);
    }

    // ----- reverse

    method CreateReversalEntries(originals: seq<Entry>) returns (reversal: seq<Validator.EntryRequest>)
      ensures reversal == Validator.FromEntries(Flipped(originals))
    {
      reversal := [];
      for i := 0 to |originals|
        invariant |reversal| == i
        invariant forall j | 0 <= j < i :: reversal[j] == Validator.FromEntry(Flip(originals[j]))
      {
        var e := originals[i];
        var side := if e.kind.Debit? then Validator.CREDIT else Validator.DEBIT;
        reversal := reversal + [Validator.EntryRequest(e.account, e.currency, Decimals.FromUnits(e.amount), side)];
      }
    }

    /** Build the reversal's entries, validate them as a request and check accounts and balances. */
    method CheckReversal(fetched: seq<Entry>, req: ReversalRequest) returns (failed: Option<ServiceError>)
      requires Bound(req.state)
      ensures failed.None? <==>
        && Validator.Acceptable(validator.Supported(), ToReversal(fetched, req))
        && Accepts(db.ledger, Flipped(fetched))
      ensures failed.None? ==> WellFormed(ReversalOf(fetched, req.idempotencyKey, StateOf(req.state)))
      ensures failed.Some? ==> !failed.value.AlreadyReversed?
    {
      var entries := CreateReversalEntries(fetched);
      var invalid := validator.ValidateTransaction(Validator.Transaction(req.state, entries, req.metadata));
      if invalid.Some? {
        return Some(Invalid(invalid.value));
      }
      Validator.ReadBackIsExact(Flipped(fetched));
      Validator.BalanceVerdictIsExact(validator.Supported(), entries);
      failed := ValidateAccountsForPost(db.ledger, Validator.ToEntries(entries), false, {});
    }

    /** Fetch the original, see whether it may be reversed, and check the reversal. */
    method CheckTarget(target: nat, order: Order, req: ReversalRequest) returns (failed: Option<ServiceError>, fetched: seq<Entry>)
      requires Bound(req.state)
      ensures failed.None? <==> MayReverse(db.ledger, validator.Supported(), target, order, req)
      ensures failed.None? ==> fetched == order(db.ledger.txns[Position(db.ledger.txns, target)].entries)
      ensures failed.None? ==> WellFormed(ReversalOf(fetched, req.idempotencyKey, StateOf(req.state)))
      ensures failed.Some? && failed.value.AlreadyReversed? ==>
        var p := Position(db.ledger.txns, target);
        p >= 0 && db.ledger.txns[p].reversedBy == Some(failed.value.reversal)
    {
      fetched := [];
      var p := Position(db.ledger.txns, target);
      if p < 0 {
        return Some(TransactionNotFound(target)), fetched;
      }
      failed := ValidateReversalEligibility(db.ledger.txns[p]);
      if failed.None? {
        fetched := order(db.ledger.txns[p].entries);
        failed := CheckReversal(fetched, req);
      }
    }

    /** The rows of a reversal: the new transaction and the link on the original. */
    method WriteReversal(target: nat, fetched: seq<Entry>, req: ReversalRequest, id: nat, postedAt: int)
        returns (failure: Option<Retry.Failure>)
      requires db.Valid() && Position(db.ledger.txns, target) >= 0
      modifies db`ledger
      ensures failure == if CanInsert(old(db.ledger).txns, id, req.idempotencyKey) then None else Some(UNIQUE_VIOLATION)
      ensures failure.Some? ==> db.ledger == old(db.ledger)
      ensures failure.None? ==>
        var p := Position(old(db.ledger).txns, target);
        db.ledger == Reversing(old(db.ledger), p, fetched, id, req.idempotencyKey, StateOf(req.state), postedAt)
    {
      ghost var saved := db.ledger;
      ghost var p := Position(saved.txns, target);
      var reversal := MakeTxn(id, ReversalOf(fetched, req.idempotencyKey, StateOf(req.state)), Some(target), postedAt);
      failure := InsertRows(reversal);
      if failure.None? {
        ghost var inserted := db.ledger;
        InsertKeepsIds(saved, reversal);
        PositionAfterInsert(saved, reversal, target);
        db.MarkOriginalTransactionReversed(target, id);
        OneRowUpdated(inserted, db.ledger, p, target);
        assert db.ledger.txns[p] == saved.txns[p].(reversedBy := Some(id));
      }
    }

    /** From the first write of a reversal to its commit. */
    method FinishReversal(target: nat, fetched: seq<Entry>, req: ReversalRequest, id: nat, postedAt: int, fault: Fault)
        returns (failed: Option<ServiceError>)
      requires db.Valid() && postedAt >= db.ledger.clock
      requires CanInsert(db.ledger.txns, id, req.idempotencyKey) ==>
        Enabled(db.ledger, Reverse(target, fetched, id, req.idempotencyKey, StateOf(req.state), postedAt))
      requires Position(db.ledger.txns, target) >= 0
      requires fault.Fault? ==> fault.stage in {AtWrite, AtPublish, AtCommit}
      modifies db
      ensures db.Valid()
      ensures var step := Reverse(target, fetched, id, req.idempotencyKey, StateOf(req.state), postedAt);
        && (failed.None? ==> fault.NoFault? && Transition(old(db.ledger), step, db.ledger) in TAKEN)
        && (failed.Some? ==> NoTrace(old(db.ledger), step, fault, db.ledger))
        && (failed.Some? && fault.NoFault? ==> Refused(old(db.ledger), step))
      ensures db.ledger != old(db.ledger) ==> db.published == old(db.published) + [id]
      ensures failed.Some? ==> failed.value.Database?
    {
      var saved := db.ledger;
      ghost var step := Reverse(target, fetched, id, req.idempotencyKey, StateOf(req.state), postedAt);
      RefusedIff(saved, step);
      var failure := WriteReversal(target, fetched, req, id, postedAt);
      if failure.Some? {
        return Some(Database(failure.value));
      }
      if fault.Fault? && fault.stage !in {AtCommit} {
        db.ledger := saved;
        return Some(Database(fault.failure));
      }
      db.Publish(id);
      if fault.Fault? {
        db.ledger := saved;
        return Some(Database(fault.failure));
      }
      StaysReachable(saved, step);
      db.ledger := db.ledger.(clock := postedAt);
      WhatIsTaken(saved, step, db.ledger);
      return if fault.ReplyLost? then Some(Database(LOST)) else None;
    }

    /** The database transaction of a reversal: the new rows and the link on the original, together or not at all. */
    method CommitReversal(target: nat, order: Order, req: ReversalRequest, id: nat, tick: nat, fault: Fault)
        returns (failed: Option<ServiceError>)
      requires db.Valid() && Bound(req.state) && Permutes(order)
      modifies db
      ensures db.Valid()
      ensures failed.None? ==>
        fault.NoFault? && Transition(old(db.ledger), ReverseStep(old(db.ledger), target, order, req, id, tick), db.ledger) in TAKEN
      ensures failed.Some? ==> NoTrace(old(db.ledger), ReverseStep(old(db.ledger), target, order, req, id, tick), fault, db.ledger)
      ensures failed.Some? && fault.NoFault? ==> ReversalRefused(old(db.ledger), validator.Supported(), target, order, req, id, tick)
      ensures db.ledger != old(db.ledger) ==> db.published == old(db.published) + [id]
      ensures failed.Some? && failed.value.AlreadyReversed? ==>
        var p := Position(old(db.ledger).txns, target);
        p >= 0 && old(db.ledger).txns[p].reversedBy == Some(failed.value.reversal)
    {
      if fault.Fault? && fault.stage !in {AtWrite, AtPublish, AtCommit} {
        return Some(Database(fault.failure));
      }
      var saved := db.ledger;
      var fetched;
      failed, fetched := CheckTarget(target, order, req);
      if failed.Some? {
        MayNotReverse(saved, validator.Supported(), target, order, req, id, tick);
        return;
      }
      MayReverseMeans(saved, validator.Supported(), target, order, req, id, tick);
      failed := FinishReversal(target, fetched, req, id, saved.clock + tick, fault);
    }

    /** The reversal proper, with what it means for rows, balances and keys. */
    method ReverseChecked(target: nat, order: Order, req: ReversalRequest, id: nat, tick: nat, fault: Fault)
        returns (failed: Option<ServiceError>)
      requires Valid() && Bound(req.state) && Permutes(order)
      modifies db
      ensures Valid()
      ensures failed.None? ==> ReversalDone(old(db.ledger), target, order, req, id, tick, db.ledger)
      ensures failed.None? && Keyed(req.idempotencyKey) ==> Carries(db.ledger, id, req.idempotencyKey.value)
      ensures failed.Some? ==>
        || db.ledger == old(db.ledger)
        || (fault.ReplyLost? && ReversalDone(old(db.ledger), target, order, req, id, tick, db.ledger))
      ensures failed.Some? && fault.NoFault? ==> ReversalRefused(old(db.ledger), validator.Supported(), target, order, req, id, tick)
      ensures db.ledger != old(db.ledger) ==> db.published == old(db.published) + [id]
    {
      ghost var saved := db.ledger;
      failed := CommitReversal(target, order, req, id, tick, fault);
      if db.ledger != saved || failed.None? {
        TakenEvolves(saved, ReverseStep(saved, target, order, req, id, tick), db.ledger);
        KeysStayTrue(keys.table, saved, db.ledger);
        ReversalFollows(saved, target, order, req, id, tick, db.ledger);
      }
    }

    /** A live key returns its transaction and reverses nothing; a key recorded afterwards points to the reversal. */
    method ReverseTransaction(target: nat, order: Order, req: ReversalRequest, id: nat, tick: nat, fault: Fault, now: int, ttl: int,
        keyFaults: KeyFaults)
        returns (r: Result<nat, ServiceError>, created: bool)
      requires Valid() && Bound(req.state) && Permutes(order)
      modifies db, keys
      ensures Valid()
      ensures created ==> r == Ok(id) && !FindsLive(old(keys.table), req.idempotencyKey, now)
      ensures created ==> ReversalDone(old(db.ledger), target, order, req, id, tick, db.ledger)
      ensures req.idempotencyKey.None? || req.idempotencyKey.value == "" ==> keys.table == old(keys.table)
      ensures created && Keyed(req.idempotencyKey) && Records(keyFaults) ==>
        Points(keys.table, req.idempotencyKey.value, Idempotency.Record(id, now, now + ttl))
      ensures r.Ok? && Keyed(req.idempotencyKey) ==> Carries(db.ledger, r.value, req.idempotencyKey.value)
      ensures !created ==>
        || db.ledger == old(db.ledger)
        || (fault.ReplyLost? && ReversalDone(old(db.ledger), target, order, req, id, tick, db.ledger))
      ensures db.ledger != old(db.ledger) ==> db.published == old(db.published) + [id]
      ensures !created && r.Err? && fault.NoFault? ==>
        || LookupFails(req.idempotencyKey, keyFaults)
        || ReversalRefused(old(db.ledger), validator.Supported(), target, order, req, id, tick)
      ensures !created && r.Ok? ==>
        FindsLive(old(keys.table), req.idempotencyKey, now) && r.value == old(keys.table)[req.idempotencyKey.value].txn
    {
      var answer := CheckKey(req.idempotencyKey, now, keyFaults);
      if answer.Some? {
        return answer.value, false;
      }
      var failed := ReverseChecked(target, order, req, id, tick, fault);
      if failed.Some? {
        return Err(failed.value), false;
      }
      Record(req.idempotencyKey, id, now, ttl, keyFaults.recording);
      return Ok(id), true;
    }
  }
}

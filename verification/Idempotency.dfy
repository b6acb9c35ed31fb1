/**
 * Idempotency keys. The key table is read and written through the connection pool, outside the ledger
 * transaction, so checking, committing and recording are separate steps that interleave with those of
 * other requests; keys expire and processes stop anywhere. What holds it together is the UNIQUE
 * column of the transactions table.
 */
module Idempotency {
  import opened Base

  datatype Record = Record(txn: nat, createdAt: int, expiresAt: int)

  type Table = map<string, Record>

  datatype Lookup = Absent | Expired | Live(record: Record)

  /** What the SELECT finds; a record still counts at the very moment it expires. */
  function Find(table: Table, key: string, now: int): Lookup {
    if key !in table then Absent
    else if now > table[key].expiresAt then Expired
    else Live(table[key])
  }

  /** INSERT ... ON CONFLICT DO NOTHING. */
  function Recorded(table: Table, key: string, txn: nat, now: int, ttl: int): Table {
    if key in table then table else table[key := Record(txn, now, now + ttl)]
  }

  datatype Status = New | Exists(record: Record)

  datatype RecordFaults = RecordFaults(insertFails: bool, readBackFails: bool, rowGone: bool)

  const NO_RECORD_FAULTS := RecordFaults(false, false, false)

  datatype RepositoryError = DatabaseError | NoSuchTransaction | OtherTransaction

  class IdempotencyRepository {
    var table: Table

    /** Faults: the SELECT may fail, and so may the DELETE of an expired row, which is only logged. */
    method CheckAndReserve(key: string, now: int, selectFails: bool, deleteFails: bool)
        returns (r: Result<Status, RepositoryError>)
      modifies this
      ensures selectFails ==> r == Err(DatabaseError) && table == old(table)
      ensures !selectFails && key !in old(table) ==> r == Ok(New) && table == old(table)
      ensures !selectFails && key in old(table) && now <= old(table)[key].expiresAt ==>
        r == Ok(Exists(old(table)[key])) && table == old(table)
      ensures !selectFails && key in old(table) && now > old(table)[key].expiresAt ==>
        r == Ok(New) && table == if deleteFails then old(table) else old(table) - {key}
    {
      if selectFails {
        return Err(DatabaseError);
      }
      if key in table {
        var record := table[key];
        if now > record.expiresAt {
          if !deleteFails {
            table := table - {key};
          }
          return Ok(New);
        }
        return Ok(Exists(record));
      }
      return Ok(New);
    }

    /**
     * committed is the set of ids in the transactions table, for the foreign key. After a conflict the
     * row is read back; that query may fail, or find that another client has deleted the row meanwhile.
     */
    method RecordSuccess(key: string, txn: nat, now: int, ttl: int, committed: set<nat>, faults: RecordFaults)
        returns (r: Result<(), RepositoryError>)
      modifies this
      ensures key !in old(table) ==>
        table == if faults.insertFails || txn !in committed then old(table) else old(table)[key := Record(txn, now, now + ttl)]
      ensures key in old(table) ==>
        table == if !faults.insertFails && faults.rowGone then old(table) - {key} else old(table)
      ensures r.Ok? ==> key in table && table[key].txn == txn
      ensures r == Err(OtherTransaction) ==> key in old(table) && old(table)[key].txn != txn
      ensures faults == NO_RECORD_FAULTS && key in old(table) && old(table)[key].txn != txn ==> r == Err(OtherTransaction)
      ensures r == Err(NoSuchTransaction) <==> !faults.insertFails && key !in old(table) && txn !in committed
    {
      if faults.insertFails {
        return Err(DatabaseError);
      }
      if key !in table {
        if txn !in committed {
          return Err(NoSuchTransaction);
        }
        table := table[key := Record(txn, now, now + ttl)];
        return Ok(());
      }
      if faults.rowGone {
        table := table - {key};
        return Err(DatabaseError);
      }
      if faults.readBackFails {
        return Err(DatabaseError);
      }
      if table[key].txn != txn {
        return Err(OtherTransaction);
      }
      return Ok(());
    }
  }

  // ----- many requests at once

  datatype Response = Created(ids: seq<nat>) | Existing(id: nat) | Failed

  /** Where a request is; indices run over its keys, one for a single post or reversal, many for a batch. */
  datatype Phase =
    | Checking(i: nat)
    | Deleting(i: nat)
    | Executing
    | Recording(i: nat, ids: seq<nat>)
    | Probing(i: nat, ids: seq<nat>)
    | Answered(response: Response)
    | Stopped

  datatype Client = Client(keys: seq<string>, batch: bool, phase: Phase)

  /** txns maps each committed transaction that carries a key to that key. */
  datatype System = System(txns: map<nat, string>, table: Table, now: int, clients: seq<Client>)

  datatype Move =
    | Arrive(keys: seq<string>, batch: bool)
    | Tick(to: int)
    | Select(c: nat)
    | Delete(c: nat, works: bool)
    | Commit(c: nat, issued: seq<nat>)
    | InsertRecord(c: nat, ttl: int)
    | SkipRecord(c: nat)
    | ReadBack(c: nat)
    | Fail(c: nat)
    | Stop(c: nat)

  const START := System(map[], map[], 0, [])

  function At(s: System, c: nat): Phase {
    if c < |s.clients| then s.clients[c].phase else Stopped
  }

  function Go(s: System, c: nat, p: Phase): System
    requires c < |s.clients|
  {
    s.(clients := s.clients[c := s.clients[c].(phase := p)])
  }

  ghost predicate Distinct<T>(s: seq<T>) {
    forall i, j | 0 <= i < j < |s| :: s[i] != s[j]
  }

  /** The transactions table after committing these rows. */
  function WithKeys(txns: map<nat, string>, ids: seq<nat>, keys: seq<string>): map<nat, string>
    requires |ids| == |keys|
    decreases |ids|
  {
    if ids == [] then txns else WithKeys(txns[ids[0] := keys[0]], ids[1..], keys[1..])
  }

  ghost predicate InRange(s: System, c: nat) {
    c < |s.clients| &&
    match s.clients[c].phase
    case Checking(i) => i < |s.clients[c].keys|
    case Deleting(i) => i < |s.clients[c].keys|
    case Recording(i, ids) => i < |s.clients[c].keys| == |ids|
    case Probing(i, ids) => i < |s.clients[c].keys| == |ids|
    case _ => true
  }

  ghost predicate KeyUnused(txns: map<nat, string>, key: string) {
    forall id | id in txns :: txns[id] != key
  }

  /** Every id is unused (primary key) and every key is unused (UNIQUE), inside the batch too. */
  ghost predicate CommitAllowed(txns: map<nat, string>, issued: seq<nat>, keys: seq<string>) {
    && |issued| == |keys|
    && Distinct(issued) && (forall j | 0 <= j < |issued| :: issued[j] !in txns)
    && Distinct(keys) && (forall j | 0 <= j < |issued| :: KeyUnused(txns, keys[j]))
  }

  ghost predicate CanMove(s: System, m: Move) {
    match m
    case Arrive(keys, batch) => keys != [] && "" !in keys && (!batch ==> |keys| == 1)
    case Tick(to) => to >= s.now
    case Select(c) => InRange(s, c) && At(s, c).Checking?
    case Delete(c, _) => InRange(s, c) && At(s, c).Deleting?
    case Commit(c, issued) =>
      && InRange(s, c) && At(s, c).Executing?
      && CommitAllowed(s.txns, issued, s.clients[c].keys)
    case InsertRecord(c, _) => InRange(s, c) && At(s, c).Recording?
    case SkipRecord(c) => InRange(s, c) && At(s, c).Recording?
    case ReadBack(c) => InRange(s, c) && At(s, c).Probing?
    case Fail(c) => InRange(s, c) && !At(s, c).Answered? && !At(s, c).Stopped?
    case Stop(c) => InRange(s, c) && !At(s, c).Answered? && !At(s, c).Stopped?
  }

  function NextCheck(s: System, c: nat, i: nat): System
    requires c < |s.clients|
  {
    Go(s, c, if i + 1 < |s.clients[c].keys| then Checking(i + 1) else Executing)
  }

  function NextRecord(s: System, c: nat, i: nat, ids: seq<nat>): System
    requires c < |s.clients|
  {
    Go(s, c, if i + 1 < |s.clients[c].keys| then Recording(i + 1, ids) else Answered(Created(ids)))
  }

  ghost function Moved(s: System, m: Move): System
    requires CanMove(s, m)
  {
    match m
    case Arrive(keys, batch) => s.(clients := s.clients + [Client(keys, batch, Checking(0))])
    case Tick(to) => s.(now := to)
    case Select(c) =>
      var i := At(s, c).i;
      (match Find(s.table, s.clients[c].keys[i], s.now)
       case Absent => NextCheck(s, c, i)
       case Expired => Go(s, c, Deleting(i))
       case Live(record) => Go(s, c, Answered(if s.clients[c].batch then Failed else Existing(record.txn))))
    case Delete(c, works) =>
      var i := At(s, c).i;
      NextCheck(if works then s.(table := s.table - {s.clients[c].keys[i]}) else s, c, i)
    case Commit(c, issued) =>
      Go(s.(txns := WithKeys(s.txns, issued, s.clients[c].keys)), c, Recording(0, issued))
    case InsertRecord(c, ttl) =>
      var i, ids := At(s, c).i, At(s, c).ids;
      var key := s.clients[c].keys[i];
      if key in s.table then Go(s, c, Probing(i, ids))
      else NextRecord(s.(table := Recorded(s.table, key, ids[i], s.now, ttl)), c, i, ids)
    case SkipRecord(c) => NextRecord(s, c, At(s, c).i, At(s, c).ids)
    case ReadBack(c) => NextRecord(s, c, At(s, c).i, At(s, c).ids)
    case Fail(c) => Go(s, c, Answered(Failed))
    case Stop(c) => Go(s, c, Stopped)
  }

  /** What a lookup leads to, by the record and the clock alone. */
  lemma SelectDecides(s: System, c: nat)
    requires CanMove(s, Select(c))
    ensures var i := At(s, c).i;
      var client, next := s.clients[c], At(Moved(s, Select(c)), c);
      var key := client.keys[i];
      if key in s.table && s.now <= s.table[key].expiresAt
      then next == Answered(if client.batch then Failed else Existing(s.table[key].txn))
      else if key in s.table then next == Deleting(i)
      else next == if i + 1 < |client.keys| then Checking(i + 1) else Executing
  {
  }

  ghost predicate Reaches(s: System, moves: seq<Move>, t: System)
    decreases |moves|
  {
    if moves == [] then s == t
    else CanMove(s, moves[0]) && Reaches(Moved(s, moves[0]), moves[1..], t)
  }

  // ----- the invariant

  /** The transactions ids[j] carry the keys keys[j]. */
  ghost predicate Carry(txns: map<nat, string>, ids: seq<nat>, keys: seq<string>) {
    |ids| == |keys| && forall j | 0 <= j < |ids| :: ids[j] in txns && txns[ids[j]] == keys[j]
  }

  ghost predicate ClientSound(txns: map<nat, string>, c: Client) {
    && c.keys != []
    && (!c.batch ==> |c.keys| == 1)
    && match c.phase
       case Checking(i) => i < |c.keys|
       case Deleting(i) => i < |c.keys|
       case Executing => true
       case Recording(i, ids) => i < |c.keys| && Carry(txns, ids, c.keys)
       case Probing(i, ids) => i < |c.keys| && Carry(txns, ids, c.keys)
       case Answered(Created(ids)) => Carry(txns, ids, c.keys)
       case Answered(Existing(id)) => Carry(txns, [id], c.keys)
       case Answered(Failed) => true
       case Stopped => true
  }

  ghost predicate KeysUnique(txns: map<nat, string>) {
    forall a, b | a in txns && b in txns && txns[a] == txns[b] :: a == b
  }

  ghost predicate RecordsTrue(s: System) {
    forall k | k in s.table :: s.table[k].txn in s.txns && s.txns[s.table[k].txn] == k
  }

  ghost predicate Inv(s: System) {
    && KeysUnique(s.txns)
    && RecordsTrue(s)
    && forall c | 0 <= c < |s.clients| :: ClientSound(s.txns, s.clients[c])
  }

  ghost predicate Grows(txns: map<nat, string>, more: map<nat, string>) {
    forall id | id in txns :: id in more && more[id] == txns[id]
  }

  lemma SoundUnderGrowth(txns: map<nat, string>, more: map<nat, string>, c: Client)
    requires ClientSound(txns, c) && Grows(txns, more)
    ensures ClientSound(more, c)
  {
  }

  lemma {:induction false} WithKeysAdds(txns: map<nat, string>, ids: seq<nat>, keys: seq<string>)
    requires KeysUnique(txns) && CommitAllowed(txns, ids, keys)
    ensures var more := WithKeys(txns, ids, keys);
      Grows(txns, more) && KeysUnique(more) && Carry(more, ids, keys)
    decreases |ids|
  {
    if ids == [] {
    } else {
      var next := txns[ids[0] := keys[0]];
      assert KeyUnused(txns, keys[0]);
      assert KeysUnique(next);
      forall j | 0 <= j < |ids| - 1 ensures KeyUnused(next, keys[1..][j]) {
        assert KeyUnused(txns, keys[j + 1]);
      }
      WithKeysAdds(next, ids[1..], keys[1..]);
      var more := WithKeys(txns, ids, keys);
      forall j | 0 <= j < |ids| ensures ids[j] in more && more[ids[j]] == keys[j] {
        if j > 0 {
          assert ids[1..][j - 1] == ids[j] && keys[1..][j - 1] == keys[j];
        } else {
          assert ids[0] in next;
        }
      }
    }
  }

  lemma CommitKeeps(s: System, c: nat, issued: seq<nat>)
    requires Inv(s) && CanMove(s, Commit(c, issued))
    ensures Inv(Moved(s, Commit(c, issued)))
    ensures Grows(s.txns, Moved(s, Commit(c, issued)).txns)
  {
    var t := Moved(s, Commit(c, issued));
    WithKeysAdds(s.txns, issued, s.clients[c].keys);
    forall d | 0 <= d < |t.clients| ensures ClientSound(t.txns, t.clients[d]) {
      SoundUnderGrowth(s.txns, t.txns, s.clients[d]);
    }
  }

  /** One client moves on, and the key table may change with it. */
  lemma GoKeeps(s: System, table: Table, c: nat, p: Phase)
    requires Inv(s) && RecordsTrue(s.(table := table)) && c < |s.clients|
    requires ClientSound(s.txns, s.clients[c].(phase := p))
    ensures Inv(Go(s.(table := table), c, p))
  {
  }

  lemma SelectKeeps(s: System, c: nat)
    requires Inv(s) && CanMove(s, Select(c))
    ensures Inv(Moved(s, Select(c)))
  {
    assert ClientSound(s.txns, s.clients[c]);
    var key := s.clients[c].keys[At(s, c).i];
    if key in s.table {
      assert |s.clients[c].keys| == 1 ==> s.clients[c].keys == [key];
    }
    GoKeeps(s, s.table, c, Moved(s, Select(c)).clients[c].phase);
  }

  lemma TableMoveKeeps(s: System, m: Move)
    requires Inv(s) && CanMove(s, m) && (m.Delete? || m.InsertRecord?)
    ensures Inv(Moved(s, m))
  {
    assert ClientSound(s.txns, s.clients[m.c]);
    GoKeeps(s, Moved(s, m).table, m.c, Moved(s, m).clients[m.c].phase);
  }

  lemma PlainMoveKeeps(s: System, m: Move)
    requires Inv(s) && CanMove(s, m) && (m.SkipRecord? || m.ReadBack? || m.Fail? || m.Stop?)
    ensures Inv(Moved(s, m))
  {
    assert ClientSound(s.txns, s.clients[m.c]);
    GoKeeps(s, s.table, m.c, Moved(s, m).clients[m.c].phase);
  }

  lemma MoveKeeps(s: System, m: Move)
    requires Inv(s) && CanMove(s, m)
    ensures Inv(Moved(s, m)) && Grows(s.txns, Moved(s, m).txns)
  {
    match m
    case Arrive(_, _) =>
    case Tick(_) =>
    case Select(c) => SelectKeeps(s, c);
    case Delete(_, _) => TableMoveKeeps(s, m);
    case Commit(c, issued) => CommitKeeps(s, c, issued);
    case InsertRecord(_, _) => TableMoveKeeps(s, m);
    case SkipRecord(_) => PlainMoveKeeps(s, m);
    case ReadBack(_) => PlainMoveKeeps(s, m);
    case Fail(_) => PlainMoveKeeps(s, m);
    case Stop(_) => PlainMoveKeeps(s, m);
  }

  lemma {:induction false} ReachKeeps(s: System, moves: seq<Move>, t: System)
    requires Inv(s) && Reaches(s, moves, t)
    ensures Inv(t) && Grows(s.txns, t.txns)
    decreases |moves|
  {
    if moves == [] {
    } else {
      MoveKeeps(s, moves[0]);
      ReachKeeps(Moved(s, moves[0]), moves[1..], t);
    }
  }

  // ----- what a caller sees

  /** The answer given to this request names the transaction id for key k. */
  ghost predicate Names(c: Client, k: string, id: nat) {
    match c.phase
    case Answered(Created(ids)) => exists j | 0 <= j < |c.keys| && j < |ids| :: c.keys[j] == k && ids[j] == id
    case Answered(Existing(x)) => k in c.keys && x == id
    case _ => false
  }

  /** The branch of RecordSuccess that finds the key tied to another transaction. */
  ghost predicate FindsOther(s: System, c: nat) {
    && c < |s.clients|
    && InRange(s, c)
    && s.clients[c].phase.Probing?
    && var p := s.clients[c].phase;
       s.clients[c].keys[p.i] in s.table && s.table[s.clients[c].keys[p.i]].txn != p.ids[p.i]
  }

  /**
   * In every interleaving: a key belongs to at most one transaction, a key record points to that
   * transaction, every successful answer for the key names it, and no request ever finds its key
   * tied to another transaction.
   */
  lemma KeysNameOneTransaction(moves: seq<Move>, s: System)
    requires Reaches(START, moves, s)
    ensures forall a, b | a in s.txns && b in s.txns && s.txns[a] == s.txns[b] :: a == b
    ensures forall k | k in s.table :: s.table[k].txn in s.txns && s.txns[s.table[k].txn] == k
    ensures forall c, k, id | 0 <= c < |s.clients| && Names(s.clients[c], k, id) :: id in s.txns && s.txns[id] == k
    ensures forall c, d, k, x, y | 0 <= c < |s.clients| && 0 <= d < |s.clients|
      && Names(s.clients[c], k, x) && Names(s.clients[d], k, y) :: x == y
    ensures forall c: nat :: !FindsOther(s, c)
  {
    ReachKeeps(START, moves, s);
    forall c, k, id | 0 <= c < |s.clients| && Names(s.clients[c], k, id) ensures id in s.txns && s.txns[id] == k {
      NamedIsCarried(s, c, k, id);
    }
    forall c: nat ensures !FindsOther(s, c) {
      if c < |s.clients| {
        assert ClientSound(s.txns, s.clients[c]);
      }
    }
  }

  lemma NamedIsCarried(s: System, c: nat, k: string, id: nat)
    requires Inv(s) && c < |s.clients| && Names(s.clients[c], k, id)
    ensures id in s.txns && s.txns[id] == k
  {
    assert ClientSound(s.txns, s.clients[c]);
    if s.clients[c].phase.response.Existing? {
      assert Carry(s.txns, [id], s.clients[c].keys);
      assert s.clients[c].keys[0] == k && [id][0] == id;
    }
  }

  /** Once answered, always the same: whatever happens later, the key still belongs to that transaction alone. */
  lemma AnswersStayTrue(before: seq<Move>, s: System, later: seq<Move>, t: System, c: nat, d: nat, k: string, x: nat, y: nat)
    requires Reaches(START, before, s) && Reaches(s, later, t)
    requires c < |s.clients| && Names(s.clients[c], k, x)
    requires d < |t.clients| && Names(t.clients[d], k, y)
    ensures x == y
    ensures forall z | z in t.txns && t.txns[z] == k :: z == x
  {
    ReachKeeps(START, before, s);
    ReachKeeps(s, later, t);
    NamedIsCarried(s, c, k, x);
    NamedIsCarried(t, d, k, y);
  }
}

/**
 * Listing transactions: a filter becomes a join, parameterised clauses and an argument list; the
 * result comes back in pages. Clauses are kept as syntax, so what they mean can be compared with the
 * filter.
 */
module Query {
  import opened Base
  import opened Ledger

  datatype Row = Row(txn: Txn, metadata: map<string, string>)

  datatype Arg = Text(text: string) | InState(state: TxnState) | Moment(time: int) | Number(n: int)

  /** A column test; the argument is referred to by placeholder number, counted from 1. */
  datatype Column = AccountIs | CurrencyIs | StateIs | PostedFrom | PostedTo

  datatype Clause = On(column: Column, at: nat) | MetadataIs(keyAt: nat, valueAt: nat)

  datatype Filter = Filter(
    accountID: Option<string>,
    currency: Option<string>,
    state: Option<TxnState>,
    startDate: Option<int>,
    endDate: Option<int>,
    metadata: map<string, string>,
    limit: int,
    offset: int)

  // ----- meaning

  function Argument(args: seq<Arg>, at: nat): Option<Arg> {
    if 1 <= at <= |args| then Some(args[at - 1]) else None
  }

  /** A column test on one joined row; without a join there is no entry. */
  predicate Test(c: Column, arg: Arg, row: Row, e: Option<Entry>) {
    match c
    case AccountIs => e.Some? && arg == Text(e.value.account)
    case CurrencyIs => e.Some? && arg == Text(e.value.currency)
    case StateIs => arg == InState(row.txn.state)
    case PostedFrom => arg.Moment? && row.txn.postedAt >= arg.time
    case PostedTo => arg.Moment? && row.txn.postedAt <= arg.time
  }

  predicate MetadataTest(row: Row, key: string, value: string) {
    key in row.metadata && row.metadata[key] == value
  }

  predicate Holds(c: Clause, args: seq<Arg>, row: Row, e: Option<Entry>) {
    match c
    case On(column, at) => Argument(args, at).Some? && Test(column, Argument(args, at).value, row, e)
    case MetadataIs(k, v) =>
      && Argument(args, k).Some? && Argument(args, k).value.Text?
      && Argument(args, v).Some? && Argument(args, v).value.Text?
      && MetadataTest(row, Argument(args, k).value.text, Argument(args, v).value.text)
  }

  predicate AllHold(cs: seq<Clause>, args: seq<Arg>, row: Row, e: Option<Entry>) {
    cs == [] || (AllHold(cs[..|cs| - 1], args, row, e) && Holds(cs[|cs| - 1], args, row, e))
  }

  /** SELECT DISTINCT over the join: one entry row must satisfy all clauses together. */
  predicate Selects(join: bool, cs: seq<Clause>, args: seq<Arg>, row: Row) {
    if join then exists e | e in row.txn.entries :: AllHold(cs, args, row, Some(e))
    else AllHold(cs, args, row, None)
  }

  predicate EntryMatches(f: Filter, e: Entry) {
    (f.accountID.Some? ==> e.account == f.accountID.value) && (f.currency.Some? ==> e.currency == f.currency.value)
  }

  /** What the filter asks for. */
  predicate Matches(f: Filter, row: Row) {
    && (f.accountID.Some? || f.currency.Some? ==> exists e | e in row.txn.entries :: EntryMatches(f, e))
    && HeaderMatches(f, row)
    && forall k | k in f.metadata :: MetadataTest(row, k, f.metadata[k])
  }

  predicate HeaderMatches(f: Filter, row: Row) {
    && (f.state.Some? ==> row.txn.state == f.state.value)
    && (f.startDate.Some? ==> row.txn.postedAt >= f.startDate.value)
    && (f.endDate.Some? ==> row.txn.postedAt <= f.endDate.value)
  }

  const EVERYTHING := Filter(None, None, None, None, None, map[], 0, 0)

  /**
   * What each field asks for: account and currency of one and the same entry, the state, both dates
   * included, the value of a metadata key. Without fields every transaction matches.
   */
  lemma FilterFieldsMean(row: Row, account: string, currency: string, state: TxnState, from: int, to: int, key: string, value: string)
    ensures Matches(EVERYTHING, row)
    ensures Matches(EVERYTHING.(accountID := Some(account), currency := Some(currency)), row) <==>
      exists e | e in row.txn.entries :: e.account == account && e.currency == currency
    ensures Matches(EVERYTHING.(accountID := Some(account)), row) <==> exists e | e in row.txn.entries :: e.account == account
    ensures Matches(EVERYTHING.(currency := Some(currency)), row) <==> exists e | e in row.txn.entries :: e.currency == currency
    ensures Matches(EVERYTHING.(state := Some(state)), row) <==> row.txn.state == state
    ensures Matches(EVERYTHING.(startDate := Some(from), endDate := Some(to)), row) <==> from <= row.txn.postedAt <= to
    ensures Matches(EVERYTHING.(metadata := map[key := value]), row) <==> key in row.metadata && row.metadata[key] == value
  {
    var f := EVERYTHING.(metadata := map[key := value]);
    assert key in f.metadata && f.metadata[key] == value;
    assert Matches(f, row) ==> MetadataTest(row, key, f.metadata[key]);
  }

  // ----- placeholders

  function Placeholders(cs: seq<Clause>): seq<nat> {
    if cs == [] then []
    else
      var c := cs[|cs| - 1];
      Placeholders(cs[..|cs| - 1]) + if c.On? then [c.at] else [c.keyAt, c.valueAt]
  }

  function Upto(n: nat): (s: seq<nat>)
    ensures |s| == n
  {
    if n == 0 then [] else Upto(n - 1) + [n]
  }

  ghost predicate PlacedBelow(cs: seq<Clause>, n: nat) {
    forall c | c in cs :: if c.On? then c.at <= n else c.keyAt <= n && c.valueAt <= n
  }

  /** Arguments appended later do not change what earlier clauses mean. */
  lemma {:induction false} LaterArgumentsIgnored(cs: seq<Clause>, args: seq<Arg>, more: seq<Arg>, row: Row, e: Option<Entry>)
    requires PlacedBelow(cs, |args|)
    ensures AllHold(cs, args + more, row, e) <==> AllHold(cs, args, row, e)
  {
    if cs == [] {
    } else {
      LaterArgumentsIgnored(cs[..|cs| - 1], args, more, row, e);
      var c := cs[|cs| - 1];
      assert c in cs;
    }
  }

  /** The clause and argument slices of ListTransactions, with the running placeholder number. */
  class QueryBuilder {
    var whereClauses: seq<Clause>
    var args: seq<Arg>
    var argIndex: nat

    ghost predicate Valid()
      reads this
    {
      && argIndex == |args| + 1
      && PlacedBelow(whereClauses, |args|)
      && Placeholders(whereClauses) == Upto(|args|)
    }

    constructor ()
      ensures Valid() && whereClauses == [] && args == []
    {
      whereClauses, args, argIndex := [], [], 1;
    }

    /** One optional field of the filter. */
    method Add(column: Column, arg: Option<Arg>)
      requires Valid()
      modifies this
      ensures Valid()
      ensures forall row, e :: AllHold(whereClauses, args, row, e) <==>
        AllHold(old(whereClauses), old(args), row, e) && (arg.Some? ==> Test(column, arg.value, row, e))
    {
      if arg.Some? {
        forall row, e
          ensures AllHold(whereClauses, args + [arg.value], row, e) <==> AllHold(whereClauses, args, row, e)
        {
          LaterArgumentsIgnored(whereClauses, args, [arg.value], row, e);
        }
        ghost var before := whereClauses;
        whereClauses := whereClauses + [On(column, argIndex)];
        assert whereClauses[..|before|] == before;
        args := args + [arg.value];
        argIndex := argIndex + 1;
      }
    }

    method AddMetadata(key: string, value: string)
      requires Valid()
      modifies this
      ensures Valid()
      ensures forall row, e :: AllHold(whereClauses, args, row, e) <==>
        AllHold(old(whereClauses), old(args), row, e) && MetadataTest(row, key, value)
    {
      forall row, e
        ensures AllHold(whereClauses, args + [Text(key), Text(value)], row, e) <==> AllHold(whereClauses, args, row, e)
      {
        LaterArgumentsIgnored(whereClauses, args, [Text(key), Text(value)], row, e);
      }
      ghost var before := whereClauses;
      whereClauses := whereClauses + [MetadataIs(argIndex, argIndex + 1)];
      assert whereClauses[..|before|] == before;
      args := args + [Text(key), Text(value)];
      argIndex := argIndex + 2;
      assert Upto(argIndex - 1) == Upto(argIndex - 3) + [argIndex - 2] + [argIndex - 1];
    }

    /** All metadata pairs, in whatever order the map yields them. */
    method AddAllMetadata(metadata: map<string, string>)
      requires Valid()
      modifies this
      ensures Valid()
      ensures forall row, e :: AllHold(whereClauses, args, row, e) <==>
        AllHold(old(whereClauses), old(args), row, e) && forall k | k in metadata :: MetadataTest(row, k, metadata[k])
    {
      var rest := metadata.Keys;
      while rest != {}
        invariant Valid() && rest <= metadata.Keys
        invariant forall row, e :: AllHold(whereClauses, args, row, e) <==>
          AllHold(old(whereClauses), old(args), row, e)
          && forall k | k in metadata && k !in rest :: MetadataTest(row, k, metadata[k])
        decreases |rest|
      {
        var k :| k in rest;
        AddMetadata(k, metadata[k]);
        rest := rest - {k};
      }
    }
  }

  function AsText(s: Option<string>): Option<Arg> { if s.Some? then Some(Text(s.value)) else None }

  function AsMoment(t: Option<int>): Option<Arg> { if t.Some? then Some(Moment(t.value)) else None }

  function AsState(s: Option<TxnState>): Option<Arg> { if s.Some? then Some(InState(s.value)) else None }

  /** The clauses say, of a header row and one joined entry, what the filter says. */
  ghost predicate SaysWhat(f: Filter, cs: seq<Clause>, args: seq<Arg>, row: Row, e: Option<Entry>) {
    AllHold(cs, args, row, e) <==>
      && (f.accountID.Some? ==> e.Some? && f.accountID.value == e.value.account)
      && (f.currency.Some? ==> e.Some? && f.currency.value == e.value.currency)
      && HeaderMatches(f, row)
      && forall k | k in f.metadata :: MetadataTest(row, k, f.metadata[k])
  }

  lemma SelectionAgrees(f: Filter, join: bool, cs: seq<Clause>, args: seq<Arg>, row: Row)
    requires join <==> f.accountID.Some? || f.currency.Some?
    requires forall e :: SaysWhat(f, cs, args, row, e)
    ensures Selects(join, cs, args, row) <==> Matches(f, row)
  {
    assert SaysWhat(f, cs, args, row, None);
    forall e | e in row.txn.entries
      ensures AllHold(cs, args, row, Some(e)) <==>
        EntryMatches(f, e) && HeaderMatches(f, row) && forall k | k in f.metadata :: MetadataTest(row, k, f.metadata[k])
    {
      assert SaysWhat(f, cs, args, row, Some(e));
    }
  }

  /**
   * The translation keeps the meaning: the generated query selects exactly the matching transactions,
   * and uses the placeholders 1..n once each, in order, for its n arguments.
   */
  method BuildQuery(f: Filter) returns (join: bool, cs: seq<Clause>, args: seq<Arg>)
    ensures forall row :: Selects(join, cs, args, row) <==> Matches(f, row)
    ensures Placeholders(cs) == Upto(|args|)
  {
    join := f.accountID.Some? || f.currency.Some?;
    var b := new QueryBuilder();
    b.Add(AccountIs, AsText(f.accountID));
    b.Add(CurrencyIs, AsText(f.currency));
    b.Add(StateIs, AsState(f.state));
    b.Add(PostedFrom, AsMoment(f.startDate));
    b.Add(PostedTo, AsMoment(f.endDate));
    b.AddAllMetadata(f.metadata);
    cs, args := b.whereClauses, b.args;
    forall row, e ensures SaysWhat(f, cs, args, row, e) {
    }
    forall row ensures Selects(join, cs, args, row) <==> Matches(f, row) {
      SelectionAgrees(f, join, cs, args, row);
    }
  }

  // ----- pages

  const DEFAULT_LIMIT := 100
  const MAX_LIMIT := 1000

  function EffectiveLimit(limit: int): (n: nat)
    ensures 1 <= n <= MAX_LIMIT
  {
    if limit <= 0 then DEFAULT_LIMIT else if limit > MAX_LIMIT then MAX_LIMIT else limit
  }

  function EffectiveOffset(offset: int): nat { if offset < 0 then 0 else offset }

  datatype Page<T> = Page(transactions: seq<T>, totalCount: nat, limit: int, offset: int, hasMore: bool)

  /** LIMIT and OFFSET on the full result in its order. */
  function Slice<T>(full: seq<T>, limit: nat, offset: nat): seq<T> {
    if offset >= |full| then []
    else if offset + limit <= |full| then full[offset..offset + limit]
    else full[offset..]
  }

  function PageOf<T>(full: seq<T>, limit: int, offset: int): Page<T> {
    var l, o := EffectiveLimit(limit), EffectiveOffset(offset);
    var page := Slice(full, l, o);
    Page(page, |full|, l, o, o + |page| < |full|)
  }

  /** Every page from the offset on, moving forward by the length of the page while there is more. */
  function Walk<T>(full: seq<T>, limit: int, offset: nat): seq<T>
    decreases |full| - offset
  {
    var page := PageOf(full, limit, offset);
    page.transactions + if page.hasMore then Walk(full, limit, offset + |page.transactions|) else []
  }

  lemma WalkStep<T>(full: seq<T>, limit: int, offset: nat)
    requires offset <= |full|
    ensures var next := offset + EffectiveLimit(limit);
      Walk(full, limit, offset) == if next < |full| then full[offset..next] + Walk(full, limit, next) else full[offset..]
  {
    var l := EffectiveLimit(limit);
    var page := PageOf(full, limit, offset);
    if offset + l < |full| {
      assert page.transactions == full[offset..offset + l] && page.hasMore;
    } else {
      assert page.transactions == full[offset..] && !page.hasMore;
      assert page.transactions + [] == page.transactions;
    }
  }

  lemma SplitAt<T>(full: seq<T>, from: nat, mid: nat)
    requires from <= mid <= |full|
    ensures full[from..] == full[from..mid] + full[mid..]
  {
  }

  /** Walking from the start terminates and yields the full result, whatever limit is asked for. */
  lemma {:induction false} WalkYieldsEverything<T>(full: seq<T>, limit: int, offset: nat)
    requires offset <= |full|
    ensures Walk(full, limit, offset) == full[offset..]
    decreases |full| - offset
  {
    var next := offset + EffectiveLimit(limit);
    WalkStep(full, limit, offset);
    if next < |full| {
      WalkYieldsEverything(full, limit, next);
      SplitAt(full, offset, next);
    }
  }

  // ----- the order of the pages

  /** ORDER BY posted_at DESC, which says nothing about rows posted at the same time. */
  ghost predicate NewestFirst<T>(rows: seq<T>, postedAt: T -> int) {
    forall i, j | 0 <= i < j < |rows| :: postedAt(rows[i]) >= postedAt(rows[j])
  }

  ghost predicate TimesTellRowsApart<T>(rows: seq<T>, postedAt: T -> int) {
    forall i, j | 0 <= i < |rows| && 0 <= j < |rows| && postedAt(rows[i]) == postedAt(rows[j]) :: rows[i] == rows[j]
  }

  ghost predicate SameRows<T>(s: seq<T>, t: seq<T>) { multiset(s) == multiset(t) }

  lemma SameHead<T>(s: seq<T>, t: seq<T>, postedAt: T -> int)
    requires NewestFirst(s, postedAt) && NewestFirst(t, postedAt)
    requires SameRows(s, t) && TimesTellRowsApart(s, postedAt) && s != []
    ensures t != [] && s[0] == t[0]
  {
    assert s[0] in multiset(t);
    var j :| 0 <= j < |t| && t[j] == s[0];
    assert t[0] in multiset(s);
    var i :| 0 <= i < |s| && s[i] == t[0];
    assert postedAt(s[0]) >= postedAt(s[i]) && postedAt(t[0]) >= postedAt(t[j]);
  }

  lemma TailsKeepRows<T>(s: seq<T>, t: seq<T>)
    requires SameRows(s, t) && s != [] && t != [] && s[0] == t[0]
    ensures SameRows(s[1..], t[1..])
  {
    assert s == [s[0]] + s[1..] && t == [t[0]] + t[1..];
    assert multiset(s[1..]) == multiset(s) - multiset{s[0]};
    assert multiset(t[1..]) == multiset(t) - multiset{t[0]};
  }

  lemma {:induction false} SameOrder<T>(s: seq<T>, t: seq<T>, postedAt: T -> int)
    requires NewestFirst(s, postedAt) && NewestFirst(t, postedAt)
    requires SameRows(s, t) && TimesTellRowsApart(s, postedAt)
    ensures s == t
  {
    if s == [] {
      assert |multiset(t)| == 0;
    } else {
      SameHead(s, t, postedAt);
      TailsKeepRows(s, t);
      SameOrder(s[1..], t[1..], postedAt);
      assert s == [s[0]] + s[1..] && t == [t[0]] + t[1..];
    }
  }

  lemma TiesSwap<T>(rows: seq<T>, postedAt: T -> int, i: int, j: int)
    requires NewestFirst(rows, postedAt) && 0 <= i < |rows| && 0 <= j < |rows|
    requires postedAt(rows[i]) == postedAt(rows[j])
    ensures var s := rows[i := rows[j]][j := rows[i]];
      NewestFirst(s, postedAt) && SameRows(rows, s) && s[i] == rows[j]
  {
    var s := rows[i := rows[j]][j := rows[i]];
    forall k | 0 <= k < |s| ensures postedAt(s[k]) == postedAt(rows[k]) {
    }
    assert multiset(rows[i := rows[j]]) == multiset(rows) - multiset{rows[i]} + multiset{rows[j]};
  }

  /** Each page query may see the rows in another order; all see the same order exactly if no two rows tie. */
  lemma OrderIsFixedIff<T(!new)>(rows: seq<T>, postedAt: T -> int)
    requires NewestFirst(rows, postedAt)
    ensures (forall s | NewestFirst(s, postedAt) && SameRows(rows, s) :: s == rows) <==> TimesTellRowsApart(rows, postedAt)
  {
    if TimesTellRowsApart(rows, postedAt) {
      forall s | NewestFirst(s, postedAt) && SameRows(rows, s) ensures s == rows {
        SameOrder(rows, s, postedAt);
      }
    } else {
      var i, j :| 0 <= i < |rows| && 0 <= j < |rows| && postedAt(rows[i]) == postedAt(rows[j]) && rows[i] != rows[j];
      TiesSwap(rows, postedAt, i, j);
    }
  }

  // ----- running it

  function Filtered(f: Filter, rows: seq<Row>): (r: seq<Row>)
    ensures forall row :: row in r <==> row in rows && Matches(f, row)
  {
    if rows == [] then []
    else
      assert rows == rows[..|rows| - 1] + [rows[|rows| - 1]];
      Filtered(f, rows[..|rows| - 1]) + if Matches(f, rows[|rows| - 1]) then [rows[|rows| - 1]] else []
  }

  function Executed(join: bool, cs: seq<Clause>, args: seq<Arg>, rows: seq<Row>): seq<Row> {
    if rows == [] then []
    else
      var last := rows[|rows| - 1];
      Executed(join, cs, args, rows[..|rows| - 1]) + if Selects(join, cs, args, last) then [last] else []
  }

  lemma {:induction false} ExecutedIsFiltered(f: Filter, join: bool, cs: seq<Clause>, args: seq<Arg>, rows: seq<Row>)
    requires forall row :: Selects(join, cs, args, row) <==> Matches(f, row)
    ensures Executed(join, cs, args, rows) == Filtered(f, rows)
  {
    if rows == [] {
    } else {
      ExecutedIsFiltered(f, join, cs, args, rows[..|rows| - 1]);
    }
  }

  /** Filtering goes row by row, in order. */
  lemma {:induction false} FilteredConcat(f: Filter, a: seq<Row>, b: seq<Row>)
    ensures Filtered(f, a + b) == Filtered(f, a) + Filtered(f, b)
  {
    if b == [] {
      assert a + b == a;
    } else {
      var front, last := b[..|b| - 1], b[|b| - 1];
      FilteredConcat(f, a, front);
      assert (a + b)[..|a + b| - 1] == a + front && (a + b)[|a + b| - 1] == last;
      assert Filtered(f, b) == Filtered(f, front) + if Matches(f, last) then [last] else [];
    }
  }

  /** No matching row is lost or repeated, no other kept. */
  lemma {:induction false} FilteredCount(f: Filter, rows: seq<Row>, row: Row)
    ensures multiset(Filtered(f, rows))[row] == if Matches(f, row) then multiset(rows)[row] else 0
  {
    if rows == [] {
    } else {
      var n := |rows| - 1;
      FilteredCount(f, rows[..n], row);
      assert rows == rows[..n] + [rows[n]];
    }
  }

  // ----- entries

  /** Rows of the entries table: the transaction and the entry. */
  type EntryRow = (nat, Entry)

  /** These are the entries the table holds for the transaction, each as often as there. */
  ghost predicate EntriesAre(es: seq<Entry>, entries: seq<EntryRow>, id: nat) {
    forall e: Entry :: multiset(es)[e] == multiset(entries)[(id, e)]
  }

  function EntriesOf(rows: seq<EntryRow>, id: nat): seq<Entry> {
    if rows == [] then []
    else
      var last := rows[|rows| - 1];
      EntriesOf(rows[..|rows| - 1], id) + if last.0 == id then [last.1] else []
  }

  lemma {:induction false} EntriesOfCount(rows: seq<EntryRow>, id: nat, e: Entry)
    ensures multiset(EntriesOf(rows, id))[e] == multiset(rows)[(id, e)]
  {
    if rows == [] {
    } else {
      var n := |rows| - 1;
      EntriesOfCount(rows[..n], id, e);
      assert rows == rows[..n] + [rows[n]];
      assert rows[n] == (rows[n].0, rows[n].1);
    }
  }

  /** Grouping keeps the order in which the rows come. */
  lemma {:induction false} EntriesOfConcat(a: seq<EntryRow>, b: seq<EntryRow>, id: nat)
    ensures EntriesOf(a + b, id) == EntriesOf(a, id) + EntriesOf(b, id)
  {
    if b == [] {
      assert a + b == a;
    } else {
      EntriesOfConcat(a, b[..|b| - 1], id);
      assert (a + b)[..|a + b| - 1] == a + b[..|b| - 1];
    }
  }

  /** The rows of the query: WHERE transaction_id = ANY(ids). */
  function Returned(entries: seq<EntryRow>, ids: seq<nat>): seq<EntryRow> {
    if entries == [] then []
    else
      var last := entries[|entries| - 1];
      Returned(entries[..|entries| - 1], ids) + if last.0 in ids then [last] else []
  }

  lemma {:induction false} ReturnedEntries(entries: seq<EntryRow>, ids: seq<nat>, id: nat)
    ensures EntriesOf(Returned(entries, ids), id) == if id in ids then EntriesOf(entries, id) else []
  {
    if entries == [] {
    } else {
      var front, last := Returned(entries[..|entries| - 1], ids), entries[|entries| - 1];
      ReturnedEntries(entries[..|entries| - 1], ids, id);
      if last.0 in ids {
        assert (front + [last])[..|front|] == front;
      } else {
        assert front + [] == front;
      }
    }
  }

  function Group(entriesMap: map<nat, seq<Entry>>, id: nat): seq<Entry> {
    if id in entriesMap then entriesMap[id] else []
  }

  lemma EntriesOfPush(rows: seq<EntryRow>, row: EntryRow)
    ensures forall id :: EntriesOf(rows + [row], id) == EntriesOf(rows, id) + if row.0 == id then [row.1] else []
  {
    assert (rows + [row])[..|rows|] == rows;
  }

  /** The loop over the rows returned. */
  method GroupRows(rows: seq<EntryRow>) returns (entriesMap: map<nat, seq<Entry>>)
    ensures forall id :: Group(entriesMap, id) == EntriesOf(rows, id)
    ensures forall id | id in entriesMap :: entriesMap[id] != []
  {
    entriesMap := map[];
    for i := 0 to |rows|
      invariant forall id :: Group(entriesMap, id) == EntriesOf(rows[..i], id)
      invariant forall id | id in entriesMap :: entriesMap[id] != []
    {
      var id := rows[i].0;
      EntriesOfPush(rows[..i], rows[i]);
      assert rows[..i + 1] == rows[..i] + [rows[i]];
      assert Group(entriesMap, id) == EntriesOf(rows[..i], id);
      entriesMap := entriesMap[id := Group(entriesMap, id) + [rows[i].1]];
    }
    assert rows[..|rows|] == rows;
  }

  lemma EntriesOfAre(entries: seq<EntryRow>, id: nat)
    ensures EntriesAre(EntriesOf(entries, id), entries, id)
  {
    forall e: Entry ensures multiset(EntriesOf(entries, id))[e] == multiset(entries)[(id, e)] {
      EntriesOfCount(entries, id, e);
    }
  }

  /** The entries of several transactions: none lost, invented or moved to another transaction. */
  method FetchEntriesByTransactionIDs(entries: seq<EntryRow>, ids: seq<nat>) returns (entriesMap: map<nat, seq<Entry>>)
    ensures forall id | id in ids :: EntriesAre(Group(entriesMap, id), entries, id)
    ensures forall id | id in ids :: Group(entriesMap, id) == EntriesOf(entries, id)
    ensures forall id | id in entriesMap :: id in ids && entriesMap[id] != []
  {
    if |ids| == 0 {
      return map[];
    }
    entriesMap := GroupRows(Returned(entries, ids));
    forall id ensures Group(entriesMap, id) == if id in ids then EntriesOf(entries, id) else [] {
      ReturnedEntries(entries, ids, id);
    }
    forall id | id in entriesMap ensures id in ids {
      assert Group(entriesMap, id) == entriesMap[id];
    }
    forall id ensures EntriesAre(EntriesOf(entries, id), entries, id) {
      EntriesOfAre(entries, id);
    }
  }

  /** Scanning the rows of the page query: headers without entries. */
  method ScanHeaders(found: seq<Row>) returns (transactions: seq<Txn>)
    ensures |transactions| == |found|
    ensures forall j | 0 <= j < |found| :: transactions[j] == found[j].txn.(entries := [])
  {
    transactions := [];
    for i := 0 to |found|
      invariant |transactions| == i
      invariant forall j | 0 <= j < i :: transactions[j] == found[j].txn.(entries := [])
    {
      transactions := transactions + [found[i].txn.(entries := [])];
    }
  }

  /** The second query: every header gets its entries back. */
  method AttachEntries(headers: seq<Txn>, entries: seq<EntryRow>) returns (transactions: seq<Txn>)
    ensures |transactions| == |headers|
    ensures forall j | 0 <= j < |headers| :: transactions[j] == headers[j].(entries := transactions[j].entries)
    ensures forall j | 0 <= j < |headers| :: EntriesAre(transactions[j].entries, entries, headers[j].id)
  {
    var ids := seq(|headers|, i requires 0 <= i < |headers| => headers[i].id);
    var entriesMap := FetchEntriesByTransactionIDs(entries, ids);
    transactions := headers;
    for i := 0 to |headers|
      invariant |transactions| == |headers|
      invariant forall j | 0 <= j < i :: transactions[j] == headers[j].(entries := Group(entriesMap, headers[j].id))
      invariant forall j | i <= j < |headers| :: transactions[j] == headers[j]
    {
      transactions := transactions[i := headers[i].(entries := Group(entriesMap, headers[i].id))];
    }
    forall j | 0 <= j < |headers| ensures EntriesAre(transactions[j].entries, entries, headers[j].id) {
      assert ids[j] in ids;
    }
  }

  function Headers(rows: seq<Row>): (r: seq<Txn>)
    ensures |r| == |rows| && forall i | 0 <= i < |rows| :: r[i] == rows[i].txn
  {
    seq(|rows|, i requires 0 <= i < |rows| => rows[i].txn)
  }

  lemma SliceOfHeaders(full: seq<Row>, limit: nat, offset: nat)
    ensures |Slice(Headers(full), limit, offset)| == |Slice(full, limit, offset)|
    ensures var found := Slice(full, limit, offset);
      forall j | 0 <= j < |found| :: Slice(Headers(full), limit, offset)[j] == found[j].txn
  {
  }

  function Least(a: int, b: int): int { if a <= b then a else b }

  function NotNegative(a: int): int { if a < 0 then 0 else a }

  /** The same transaction with its entries in whatever order the query returned them. */
  ghost predicate SameListed(t: Txn, u: Txn) {
    u == t.(entries := u.entries) && SameEntries(t.entries, u.entries)
  }

  /** The same page, up to the order of entries within each transaction. */
  ghost predicate SamePage(p: Page<Txn>, q: Page<Txn>) {
    && q == p.(transactions := q.transactions)
    && |q.transactions| == |p.transactions|
    && forall i | 0 <= i < |p.transactions| :: SameListed(p.transactions[i], q.transactions[i])
  }

  lemma SameCountsSameEntries(a: seq<Entry>, b: seq<Entry>, entries: seq<EntryRow>, id: nat)
    requires EntriesAre(a, entries, id) && EntriesAre(b, entries, id)
    ensures SameEntries(a, b)
  {
    assert forall e: Entry :: multiset(a)[e] == multiset(b)[e];
  }

  /** Build the query and run it on the table. */
  method RunQuery(f: Filter, rows: seq<Row>) returns (full: seq<Row>)
    ensures full == Filtered(f, rows)
  {
    var join, cs, args := BuildQuery(f);
    full := Executed(join, cs, args, rows);
    ExecutedIsFiltered(f, join, cs, args, rows);
  }

  /** Headers of the rows found, with their entries. */
  method LoadPage(found: seq<Row>, entries: seq<EntryRow>) returns (transactions: seq<Txn>)
    requires forall j | 0 <= j < |found| :: EntriesAre(found[j].txn.entries, entries, found[j].txn.id)
    ensures |transactions| == |found|
    ensures forall j | 0 <= j < |found| :: SameListed(found[j].txn, transactions[j])
  {
    transactions := ScanHeaders(found);
    if |transactions| > 0 {
      transactions := AttachEntries(transactions, entries);
    }
    forall j | 0 <= j < |found| ensures SameListed(found[j].txn, transactions[j]) {
      SameCountsSameEntries(found[j].txn.entries, transactions[j].entries, entries, found[j].txn.id);
    }
  }

  lemma FoundAreRows(f: Filter, rows: seq<Row>, limit: nat, offset: nat, j: int)
    requires 0 <= j < |Slice(Filtered(f, rows), limit, offset)|
    ensures offset + j < |Filtered(f, rows)| && Slice(Filtered(f, rows), limit, offset)[j] == Filtered(f, rows)[offset + j]
    ensures Slice(Filtered(f, rows), limit, offset)[j] in rows
  {
    assert Filtered(f, rows)[offset + j] in Filtered(f, rows);
  }

  /**
   * One page of the listing. rows is the transactions table in the order of the ORDER BY, which must
   * be the same for all pages; entries is the entries table, in any order.
   */
  method ListTransactions(f: Filter, rows: seq<Row>, entries: seq<EntryRow>) returns (page: Page<Txn>)
    requires forall row | row in rows :: EntriesAre(row.txn.entries, entries, row.txn.id)
    ensures SamePage(PageOf(Headers(Filtered(f, rows)), f.limit, f.offset), page)
    ensures page.limit == if f.limit <= 0 then 100 else if f.limit > 1000 then 1000 else f.limit
    ensures page.offset == if f.offset < 0 then 0 else f.offset
    ensures page.totalCount == |Filtered(f, rows)|
    ensures |page.transactions| == Least(page.limit, NotNegative(page.totalCount - page.offset))
    ensures forall j | 0 <= j < |page.transactions| :: SameListed(Filtered(f, rows)[page.offset + j].txn, page.transactions[j])
    ensures page.hasMore <==> page.offset + |page.transactions| < page.totalCount
  {
    var limit, offset := EffectiveLimit(f.limit), EffectiveOffset(f.offset);
    var full := RunQuery(f, rows);
    var found := Slice(full, limit, offset);
    forall j | 0 <= j < |found| ensures found[j] in rows && offset + j < |full| && found[j] == full[offset + j] {
      FoundAreRows(f, rows, limit, offset, j);
    }
    var transactions := LoadPage(found, entries);
    SliceOfHeaders(full, limit, offset);
    page := Page(transactions, |full|, limit, offset, offset + |transactions| < |full|);
  }
}

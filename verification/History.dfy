/**
 * Time windows, snapshots and the past. One quantity explains every disagreement: the drift, the
 * value of transactions posted at or before a time that were pending then and have settled since.
 */
module History {
  import opened Base
  import opened Sums
  import opened Ledger
  import opened Balances
  import opened Machine
  import opened Evolution
  import opened Structure

  type Measure = seq<Entry> -> int

  function Value(k: Key): Measure { EntrySum(SignedOn(k)) }

  function Rows(k: Key): Measure { EntrySum(OneOn(k)) }

  /** Sum of g over the settled rows posted at or before upTo. */
  function Past(txns: seq<Txn>, g: Measure, upTo: int): int {
    Sum(txns, Pick(g, Settled, None, Some(upTo)))
  }

  function Versions(l: Ledger, m: Ledger): seq<(Txn, Txn)>
    requires |l.txns| <= |m.txns|
  {
    seq(|l.txns|, i requires 0 <= i < |l.txns| => (l.txns[i], m.txns[i]))
  }

  function SettledSince(g: Measure, upTo: int): ((Txn, Txn)) -> int {
    (v: (Txn, Txn)) =>
      if v.0.postedAt <= upTo && v.0.state.Pending? && v.1.state.Settled? then g(v.0.entries) else 0
  }

  /** What settling after l has added to the past of time upTo, as seen in m. */
  function Drift(l: Ledger, m: Ledger, g: Measure, upTo: int): int
    requires |l.txns| <= |m.txns|
  {
    Sum(Versions(l, m), SettledSince(g, upTo))
  }

  ghost predicate Quiet(txns: seq<Txn>, upTo: int) {
    forall i | 0 <= i < |txns| && txns[i].postedAt <= upTo :: !txns[i].state.Pending?
  }

  /** The past moves by exactly the drift, whatever measure is folded. */
  lemma PastMovesByDrift(l: Ledger, m: Ledger, g: Measure, upTo: int)
    requires Evolves(l, m) && l.clock > upTo
    ensures Past(m.txns, g, upTo) == Past(l.txns, g, upTo) + Drift(l, m, g, upTo)
  {
    var n := |l.txns|;
    var pick := Pick(g, Settled, None, Some(upTo));
    var before := (v: (Txn, Txn)) => pick(v.0);
    var now := (v: (Txn, Txn)) => pick(v.1);
    var versions := Versions(l, m);
    forall i | 0 <= i < n ensures now(versions[i]) == before(versions[i]) + SettledSince(g, upTo)(versions[i]) {
      assert Descends(l.txns[i], m.txns[i]);
    }
    SumPlus(versions, before, SettledSince(g, upTo), now);
    SumSame(versions, l.txns, before, pick);
    SumSame(versions, m.txns[..n], now, pick);
    assert m.txns == m.txns[..n] + m.txns[n..];
    SumConcat(m.txns[..n], m.txns[n..], pick);
    SumZero(m.txns[n..], pick);
  }

  lemma QuietPastStays(l: Ledger, m: Ledger, g: Measure, upTo: int)
    requires Evolves(l, m) && l.clock > upTo && Quiet(l.txns, upTo)
    ensures Past(m.txns, g, upTo) == Past(l.txns, g, upTo)
  {
    PastMovesByDrift(l, m, g, upTo);
    SumZero(Versions(l, m), SettledSince(g, upTo));
  }

  lemma QuietStays(l: Ledger, m: Ledger, upTo: int)
    requires Evolves(l, m) && l.clock > upTo && Quiet(l.txns, upTo)
    ensures Quiet(m.txns, upTo)
  {
    forall i | 0 <= i < |m.txns| && m.txns[i].postedAt <= upTo ensures !m.txns[i].state.Pending? {
      assert i < |l.txns|;
      assert Descends(l.txns[i], m.txns[i]);
    }
  }

  // ----- windows

  /** A window splits at any time inside it. */
  lemma WindowsTelescope(txns: seq<Txn>, g: Measure, t1: int, upTo: Option<int>)
    requires upTo.Some? ==> t1 <= upTo.value
    ensures Sum(txns, Pick(g, Settled, None, upTo))
         == Past(txns, g, t1) + Sum(txns, Pick(g, Settled, Some(t1), upTo))
  {
    SumPlus(txns, Pick(g, Settled, None, Some(t1)), Pick(g, Settled, Some(t1), upTo), Pick(g, Settled, None, upTo));
  }

  /** A bound past every posting is no bound. */
  lemma BoundPastEverything(txns: seq<Txn>, k: Key, upTo: int)
    requires forall i | 0 <= i < |txns| :: txns[i].postedAt <= upTo
    ensures FoldedBalance(txns, k, Some(upTo)) == FoldedBalance(txns, k, None)
  {
    forall f: Entry -> int, state: TxnState
      ensures Sum(txns, Pick(EntrySum(f), state, None, Some(upTo))) == Sum(txns, Pick(EntrySum(f), state, None, None))
    {
      SumSame(txns, txns, Pick(EntrySum(f), state, None, Some(upTo)), Pick(EntrySum(f), state, None, None));
    }
  }

  /** The settled part of any balance query, read as one signed fold. */
  lemma SettledReading(txns: seq<Txn>, k: Key, after: Option<int>, upTo: Option<int>)
    ensures var a := Aggregate(txns, k, Settled, after, upTo);
      && a.credits - a.debits == Sum(txns, Pick(Value(k), Settled, after, upTo))
      && a.count == Sum(txns, Pick(Rows(k), Settled, after, upTo))
  {
    CreditsMinusDebits(txns, k, Settled, after, upTo);
  }

  // ----- snapshots

  /** The snapshot holds the settled fold at its time, as the ledger has it now. */
  ghost predicate Correct(txns: seq<Txn>, s: Snapshot) {
    s.settled == Past(txns, Value(s.key), s.at) && s.count == Past(txns, Rows(s.key), s.at)
  }

  /** Starting from any correct snapshot inside the window gives the snapshot-free answer. */
  lemma CorrectSnapshotIsTransparent(txns: seq<Txn>, s: Snapshot, upTo: Option<int>)
    requires Correct(txns, s) && (upTo.Some? ==> s.at <= upTo.value)
    ensures Combine(Some(s), Aggregate(txns, s.key, Settled, Some(s.at), upTo), Aggregate(txns, s.key, Pending, None, upTo))
         == FoldedBalance(txns, s.key, upTo)
  {
    var k := s.key;
    SettledReading(txns, k, None, upTo);
    SettledReading(txns, k, Some(s.at), upTo);
    WindowsTelescope(txns, Value(k), s.at, upTo);
    WindowsTelescope(txns, Rows(k), s.at, upTo);
  }

  lemma CaptureIsCorrect(l: Ledger, k: Key, at: int)
    ensures var m := Capturing(l, k, at);
      && m.clock > at
      && Correct(m.txns, m.snapshots[|l.snapshots|])
  {
    SettledReading(l.txns, k, None, Some(at));
  }

  /**
   * The snapshot form is exact up to the drift: after any run that followed the capture, the true
   * settled balance, available balance and entry count exceed the snapshot-based ones by the summed
   * impact (row count) of what was posted by then, was pending at the capture, and has settled since.
   */
  lemma SnapshotIsExactUpToDrift(l: Ledger, k: Key, at: int, steps: seq<Step>)
    requires Enabled(l, Capture(k, at))
    requires Legal(Apply(l, Capture(k, at)), steps)
    requires var l1 := Apply(l, Capture(k, at));
      LatestSnapshot(After(l1, steps).snapshots, k, None) == Some(l1.snapshots[|l.snapshots|])
    ensures var l1 := Apply(l, Capture(k, at));
      var m := After(l1, steps);
      && |l1.txns| <= |m.txns|
      && FoldedBalance(m.txns, k, None).settled == CurrentBalance(m, k).settled + Drift(l1, m, Value(k), at)
      && FoldedBalance(m.txns, k, None).available == CurrentBalance(m, k).available + Drift(l1, m, Value(k), at)
      && FoldedBalance(m.txns, k, None).count == CurrentBalance(m, k).count + Drift(l1, m, Rows(k), at)
  {
    var l1 := Apply(l, Capture(k, at));
    var m := After(l1, steps);
    CaptureIsCorrect(l, k, at);
    RunEvolves(l1, steps);
    PastMovesByDrift(l1, m, Value(k), at);
    PastMovesByDrift(l1, m, Rows(k), at);
    SettledReading(m.txns, k, None, None);
    SettledReading(m.txns, k, Some(at), None);
    WindowsTelescope(m.txns, Value(k), at, None);
    WindowsTelescope(m.txns, Rows(k), at, None);
  }

  /** How far a balance read from a snapshot is off, in any ledger: by what the snapshot lacks by now. */
  lemma ReadingGap(l: Ledger, k: Key)
    ensures var start := LatestSnapshot(l.snapshots, k, None);
      AvailableOn(l.txns, k) - CurrentBalance(l, k).available
      == if start.None? then 0 else Past(l.txns, Value(k), start.value.at) - start.value.settled
  {
    var start := LatestSnapshot(l.snapshots, k, None);
    FoldedIsTrue(l.txns, k);
    SettledReading(l.txns, k, None, None);
    SettledReading(l.txns, k, StartTime(start), None);
    if start.Some? {
      WindowsTelescope(l.txns, Value(k), start.value.at, None);
    }
  }

  // ----- quiet captures

  /** A step that captures only where nothing is pending any more. */
  ghost predicate QuietStep(l: Ledger, s: Step) {
    s.Capture? ==> Quiet(l.txns, s.at)
  }

  ghost predicate QuietRun(l: Ledger, steps: seq<Step>)
    requires Legal(l, steps)
    decreases |steps|
  {
    steps == [] ||
    var n := |steps| - 1;
    QuietRun(l, steps[..n]) && QuietStep(After(l, steps[..n]), steps[n])
  }

  ghost predicate SnapshotSettled(l: Ledger, s: Snapshot) {
    l.clock > s.at && Quiet(l.txns, s.at) && Correct(l.txns, s)
  }

  ghost predicate SnapshotsSettled(l: Ledger) {
    forall s | s in l.snapshots :: SnapshotSettled(l, s)
  }

  lemma SettledSnapshotStays(l: Ledger, m: Ledger, s: Snapshot)
    requires Evolves(l, m) && SnapshotSettled(l, s)
    ensures SnapshotSettled(m, s)
  {
    QuietStays(l, m, s.at);
    QuietPastStays(l, m, Value(s.key), s.at);
    QuietPastStays(l, m, Rows(s.key), s.at);
  }

  lemma QuietStepKeeps(l: Ledger, s: Step)
    requires Enabled(l, s) && SnapshotsSettled(l) && QuietStep(l, s)
    ensures SnapshotsSettled(Apply(l, s))
  {
    var m := Apply(l, s);
    StepEvolves(l, s);
    forall p | p in m.snapshots ensures SnapshotSettled(m, p) {
      if s.Capture? && p !in l.snapshots {
        CaptureIsCorrect(l, s.k, s.at);
      } else {
        if !s.Capture? {
          SnapshotsOnlyCaptured(l, s);
        }
        SettledSnapshotStays(l, m, p);
      }
    }
  }

  lemma SnapshotsOnlyCaptured(l: Ledger, s: Step)
    requires Enabled(l, s) && !s.Capture?
    ensures Apply(l, s).snapshots == l.snapshots
  {
  }

  lemma {:induction false} QuietRunKeeps(l: Ledger, steps: seq<Step>)
    requires Legal(l, steps) && SnapshotsSettled(l) && QuietRun(l, steps)
    ensures SnapshotsSettled(After(l, steps))
    decreases |steps|
  {
    if steps == [] {
    } else {
      var n := |steps| - 1;
      QuietRunKeeps(l, steps[..n]);
      QuietStepKeeps(After(l, steps[..n]), steps[n]);
    }
  }

  /** With settled snapshots both balance queries return the snapshot-free answer. */
  lemma QueriesAreExact(l: Ledger, k: Key, asOf: int)
    requires SnapshotsSettled(l)
    ensures CurrentBalance(l, k) == FoldedBalance(l.txns, k, None)
    ensures HistoricalBalance(l, k, asOf) == FoldedBalance(l.txns, k, Some(asOf))
  {
    var now := LatestSnapshot(l.snapshots, k, None);
    if now.Some? {
      assert SnapshotSettled(l, now.value);
      CorrectSnapshotIsTransparent(l.txns, now.value, None);
    }
    var past := LatestSnapshot(l.snapshots, k, Some(asOf));
    if past.Some? {
      assert SnapshotSettled(l, past.value);
      CorrectSnapshotIsTransparent(l.txns, past.value, Some(asOf));
    }
  }

  // ----- finality

  lemma PendingPastEmpty(txns: seq<Txn>, k: Key, upTo: int)
    requires Quiet(txns, upTo)
    ensures Aggregate(txns, k, Pending, None, Some(upTo)) == Totals(0, 0, 0)
  {
    SumZero(txns, Pick(EntrySum(CreditOn(k)), Pending, None, Some(upTo)));
    SumZero(txns, Pick(EntrySum(DebitOn(k)), Pending, None, Some(upTo)));
    SumZero(txns, Pick(EntrySum(OneOn(k)), Pending, None, Some(upTo)));
  }

  /**
   * Finality of history: once nothing posted at or before upTo is pending, no continuation whose
   * posts come later changes the balance of any key at upTo, later reversals included. When the
   * captures of the run are quiet this is also what the historical query keeps returning.
   */
  lemma HistoryIsFinal(l: Ledger, steps: seq<Step>, k: Key, upTo: int)
    requires Legal(l, steps) && Quiet(l.txns, upTo) && l.clock > upTo
    ensures FoldedBalance(After(l, steps).txns, k, Some(upTo)) == FoldedBalance(l.txns, k, Some(upTo))
    ensures SnapshotsSettled(l) && QuietRun(l, steps) ==>
      HistoricalBalance(After(l, steps), k, upTo) == HistoricalBalance(l, k, upTo)
  {
    var m := After(l, steps);
    RunEvolves(l, steps);
    QuietStays(l, m, upTo);
    PendingPastEmpty(l.txns, k, upTo);
    PendingPastEmpty(m.txns, k, upTo);
    QuietPastStays(l, m, Value(k), upTo);
    QuietPastStays(l, m, Rows(k), upTo);
    SettledReading(l.txns, k, None, Some(upTo));
    SettledReading(m.txns, k, None, Some(upTo));
    if SnapshotsSettled(l) && QuietRun(l, steps) {
      QuietRunKeeps(l, steps);
      QueriesAreExact(l, k, upTo);
      QueriesAreExact(m, k, upTo);
    }
  }

  /** Settling moves the settled balance of every past time from the posting on. */
  lemma SettleMovesThePast(l: Ledger, i: int, at: int, k: Key, upTo: int)
    requires 0 <= i < |l.txns| && l.txns[i].state.Pending? && l.txns[i].postedAt <= upTo
    ensures var before, now := FoldedBalance(l.txns, k, Some(upTo)), FoldedBalance(Settling(l, i, at).txns, k, Some(upTo));
      && now.settled == before.settled + Impact(l.txns[i].entries, k)
      && now.count == before.count + Rows(k)(l.txns[i].entries)
  {
    var m := Settling(l, i, at);
    SettledReading(l.txns, k, None, Some(upTo));
    SettledReading(m.txns, k, None, Some(upTo));
    SumUpdate(l.txns, i, m.txns[i], Pick(Value(k), Settled, None, Some(upTo)));
    SumUpdate(l.txns, i, m.txns[i], Pick(Rows(k), Settled, None, Some(upTo)));
  }

  /** Cancelling takes the transaction's pending amounts out of every such time, and nothing else. */
  lemma CancelMovesThePast(l: Ledger, i: int, k: Key, upTo: int)
    requires 0 <= i < |l.txns| && l.txns[i].state.Pending? && l.txns[i].postedAt <= upTo
    ensures var before, now := FoldedBalance(l.txns, k, Some(upTo)), FoldedBalance(Cancelling(l, i).txns, k, Some(upTo));
      && now.settled == before.settled && now.count == before.count
      && now.pendingCredits == before.pendingCredits - EntrySum(CreditOn(k))(l.txns[i].entries)
      && now.pendingDebits == before.pendingDebits - EntrySum(DebitOn(k))(l.txns[i].entries)
      && now.available == before.available - Impact(l.txns[i].entries, k)
  {
    var m := Cancelling(l, i);
    forall f: Entry -> int
      ensures Sum(m.txns, Pick(EntrySum(f), Settled, None, Some(upTo))) == Sum(l.txns, Pick(EntrySum(f), Settled, None, Some(upTo)))
      ensures Sum(m.txns, Pick(EntrySum(f), Pending, None, Some(upTo)))
           == Sum(l.txns, Pick(EntrySum(f), Pending, None, Some(upTo))) - EntrySum(f)(l.txns[i].entries)
    {
      SumUpdate(l.txns, i, m.txns[i], Pick(EntrySum(f), Settled, None, Some(upTo)));
      SumUpdate(l.txns, i, m.txns[i], Pick(EntrySum(f), Pending, None, Some(upTo)));
    }
    SumPlus(l.txns[i].entries, SignedOn(k), DebitOn(k), CreditOn(k));
  }

  function CancelledSince(g: Measure, upTo: int): ((Txn, Txn)) -> int {
    (v: (Txn, Txn)) =>
      if v.0.postedAt <= upTo && v.0.state.Pending? && v.1.state.Cancelled? then g(v.0.entries) else 0
  }

  /** What cancelling after l has taken from the past of time upTo, as seen in m. */
  function Lost(l: Ledger, m: Ledger, g: Measure, upTo: int): int
    requires |l.txns| <= |m.txns|
  {
    Sum(Versions(l, m), CancelledSince(g, upTo))
  }

  function NotCancelled(g: Measure, upTo: int): Txn -> int {
    (t: Txn) => if (t.state.Settled? || t.state.Pending?) && t.postedAt <= upTo then g(t.entries) else 0
  }

  lemma AvailableReading(txns: seq<Txn>, k: Key, upTo: int)
    ensures FoldedBalance(txns, k, Some(upTo)).available == Sum(txns, NotCancelled(Value(k), upTo))
  {
    CreditsMinusDebits(txns, k, Settled, None, Some(upTo));
    CreditsMinusDebits(txns, k, Pending, None, Some(upTo));
    var settled, pending := Pick(Value(k), Settled, None, Some(upTo)), Pick(Value(k), Pending, None, Some(upTo));
    var live := NotCancelled(Value(k), upTo);
    forall i | 0 <= i < |txns| ensures live(txns[i]) == settled(txns[i]) + pending(txns[i]) {
    }
    SumPlus(txns, settled, pending, live);
  }

  lemma LiveMovesByLost(l: Ledger, m: Ledger, g: Measure, upTo: int)
    requires Evolves(l, m) && l.clock > upTo
    ensures Sum(m.txns, NotCancelled(g, upTo)) == Sum(l.txns, NotCancelled(g, upTo)) - Lost(l, m, g, upTo)
  {
    var n := |l.txns|;
    var live := NotCancelled(g, upTo);
    var before := (v: (Txn, Txn)) => live(v.0);
    var now := (v: (Txn, Txn)) => live(v.1);
    var versions := Versions(l, m);
    forall i | 0 <= i < n ensures before(versions[i]) == now(versions[i]) + CancelledSince(g, upTo)(versions[i]) {
      assert Descends(l.txns[i], m.txns[i]);
    }
    SumPlus(versions, now, CancelledSince(g, upTo), before);
    SumSame(versions, l.txns, before, live);
    SumSame(versions, m.txns[..n], now, live);
    assert m.txns == m.txns[..n] + m.txns[n..];
    SumConcat(m.txns[..n], m.txns[n..], live);
    SumZero(m.txns[n..], live);
  }

  /**
   * How the balance at a past time moves, exactly: the settled part and the count by what has settled
   * since, the available part by what has been cancelled since.
   */
  lemma PastBalanceMoves(l: Ledger, m: Ledger, k: Key, upTo: int)
    requires Evolves(l, m) && l.clock > upTo
    ensures var before, now := FoldedBalance(l.txns, k, Some(upTo)), FoldedBalance(m.txns, k, Some(upTo));
      && now.settled == before.settled + Drift(l, m, Value(k), upTo)
      && now.count == before.count + Drift(l, m, Rows(k), upTo)
      && now.available == before.available - Lost(l, m, Value(k), upTo)
  {
    PastMovesByDrift(l, m, Value(k), upTo);
    PastMovesByDrift(l, m, Rows(k), upTo);
    SettledReading(l.txns, k, None, Some(upTo));
    SettledReading(m.txns, k, None, Some(upTo));
    LiveMovesByLost(l, m, Value(k), upTo);
    AvailableReading(l.txns, k, upTo);
    AvailableReading(m.txns, k, upTo);
  }

  ghost predicate SameThen(l: Ledger, m: Ledger, upTo: int) {
    forall k :: FoldedBalance(m.txns, k, Some(upTo)) == FoldedBalance(l.txns, k, Some(upTo))
  }

  /** No continuation changes the balances at a past time exactly if nothing posted by then is pending. */
  lemma HistoryIsFinalIff(l: Ledger, upTo: int)
    requires Inv(l) && l.clock > upTo
    ensures (forall steps | Legal(l, steps) :: SameThen(l, After(l, steps), upTo)) <==> Quiet(l.txns, upTo)
  {
    if Quiet(l.txns, upTo) {
      forall steps, k | Legal(l, steps)
        ensures FoldedBalance(After(l, steps).txns, k, Some(upTo)) == FoldedBalance(l.txns, k, Some(upTo))
      {
        HistoryIsFinal(l, steps, k, upTo);
      }
    } else {
      var i :| 0 <= i < |l.txns| && l.txns[i].postedAt <= upTo && l.txns[i].state.Pending?;
      SettlingShows(l, i, upTo);
    }
  }

  /** Settling a pending row is always possible and raises the count on the key of its first entry. */
  lemma SettlingShows(l: Ledger, i: int, upTo: int)
    requires Inv(l) && 0 <= i < |l.txns| && l.txns[i].postedAt <= upTo && l.txns[i].state.Pending?
    ensures exists steps :: Legal(l, steps) && !SameThen(l, After(l, steps), upTo)
  {
    assert RowSound(l.accounts, l.txns[i]);
    var es, step := l.txns[i].entries, Settle(l.txns[i].id, 0);
    var k := es[0].On();
    assert Position(l.txns, l.txns[i].id) == i;
    OneMore(l, [], step);
    SettleMovesThePast(l, i, 0, k, upTo);
    assert es == [es[0]] + es[1..];
    SumConcat([es[0]], es[1..], OneOn(k));
    SumPush([], es[0], OneOn(k));
    assert [] + [es[0]] == [es[0]];
    SumNonNegative(es[1..], OneOn(k));
    assert !SameThen(l, After(l, [] + [step]), upTo);
  }
}

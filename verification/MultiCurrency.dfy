/**
 * One balance per currency, computed in parallel: a worker per currency sends its result on a channel
 * with room for all of them, a closer closes it when every worker is done, and the caller collects
 * until the channel is drained or a result is an error.
 */
module MultiCurrency {
  import opened Base

  /** None is an error from the balance query. */
  type Outcome = Option<int>

  datatype Worker = Computing | Sending(outcome: Outcome) | Finished

  datatype Message = Message(currency: string, outcome: Outcome)

  datatype Caller = Collecting | Returned(balances: map<string, int>) | Failed(currency: string)

  /** The channel holds sent[taken..]; what was received before stays in sent as history. */
  datatype State = State(
    workers: map<string, Worker>,
    sent: seq<Message>,
    taken: nat,
    closed: bool,
    balances: map<string, int>,
    caller: Caller)

  datatype Step = Compute(currency: string, outcome: Outcome) | Send(sender: string) | Close | Receive | Finish

  function Start(currencies: set<string>): State {
    State(map c | c in currencies :: Computing, [], 0, false, map[], Collecting)
  }

  predicate AllFinished(s: State) {
    forall c | c in s.workers :: s.workers[c].Finished?
  }

  /** A send waits for room; the capacity is the number of currencies. */
  predicate Can(s: State, step: Step) {
    match step
    case Compute(c, _) => c in s.workers && s.workers[c].Computing?
    case Send(c) => c in s.workers && s.workers[c].Sending? && s.taken <= |s.sent| < s.taken + |s.workers|
    case Close => !s.closed && AllFinished(s)
    case Receive => s.caller.Collecting? && s.taken < |s.sent|
    case Finish => s.caller.Collecting? && s.taken == |s.sent| && s.closed
  }

  function After(s: State, step: Step): State
    requires Can(s, step)
  {
    match step
    case Compute(c, outcome) => s.(workers := s.workers[c := Sending(outcome)])
    case Send(c) => s.(workers := s.workers[c := Finished], sent := s.sent + [Message(c, s.workers[c].outcome)])
    case Close => s.(closed := true)
    case Receive =>
      var m := s.sent[s.taken];
      if m.outcome.None? then s.(taken := s.taken + 1, caller := Failed(m.currency))
      else s.(taken := s.taken + 1, balances := s.balances[m.currency := m.outcome.value])
    case Finish => s.(caller := Returned(s.balances))
  }

  predicate Runs(s: State, steps: seq<Step>)
    decreases |steps|
  {
    steps == [] || (Can(s, steps[0]) && Runs(After(s, steps[0]), steps[1..]))
  }

  function RunTo(s: State, steps: seq<Step>): State
    requires Runs(s, steps)
    decreases |steps|
  {
    if steps == [] then s else RunTo(After(s, steps[0]), steps[1..])
  }

  // ----- invariant

  function Senders(ms: seq<Message>): set<string> {
    set m | m in ms :: m.currency
  }

  function FinishedOf(s: State): set<string> { set c | c in s.workers && s.workers[c].Finished? }

  /** Each worker sends once, just before it is finished. */
  ghost predicate SentOnce(s: State) {
    && Senders(s.sent) == FinishedOf(s)
    && forall i, j | 0 <= i < j < |s.sent| :: s.sent[i].currency != s.sent[j].currency
  }

  /** The map the caller has built from the messages it received, all successes. */
  function Table(ms: seq<Message>): map<string, int>
    requires AllOk(ms)
  {
    if ms == [] then map[]
    else
      var m := ms[|ms| - 1];
      Table(ms[..|ms| - 1])[m.currency := m.outcome.value]
  }

  predicate AllOk(ms: seq<Message>) {
    forall i | 0 <= i < |ms| :: ms[i].outcome.Some?
  }

  ghost predicate Collected(s: State)
    requires s.taken <= |s.sent|
  {
    AllOk(s.sent[..s.taken]) && s.balances == Table(s.sent[..s.taken])
  }

  ghost predicate Inv(currencies: set<string>, s: State) {
    && s.workers.Keys == currencies
    && s.taken <= |s.sent|
    && SentOnce(s)
    && (s.closed ==> AllFinished(s))
    && match s.caller
       case Collecting => Collected(s)
       case Returned(b) => b == s.balances && s.closed && s.taken == |s.sent| && Collected(s)
       case Failed(c) => 0 < s.taken && s.sent[s.taken - 1] == Message(c, None)
  }

  lemma {:induction false} SendersCount(ms: seq<Message>)
    requires forall i, j | 0 <= i < j < |ms| :: ms[i].currency != ms[j].currency
    ensures |Senders(ms)| == |ms|
  {
    if ms == [] {
    } else {
      var front, last := ms[..|ms| - 1], ms[|ms| - 1];
      SendersCount(front);
      SendersPush(front, last);
      assert ms == front + [last];
      assert last.currency !in Senders(front);
    }
  }

  lemma SendersPush(front: seq<Message>, last: Message)
    ensures Senders(front + [last]) == Senders(front) + {last.currency}
  {
    var all := front + [last];
    assert forall m :: m in all <==> m in front || m == last;
  }

  /** A worker that has not finished leaves room: what is in the channel came from the others. */
  lemma RoomForTheRest(currencies: set<string>, s: State, c: string)
    requires Inv(currencies, s) && c in currencies && !s.workers[c].Finished?
    ensures |s.sent| < |currencies|
  {
    SendersCount(s.sent);
    Subset(Senders(s.sent), currencies - {c});
  }

  lemma Subset<T>(a: set<T>, b: set<T>)
    requires a <= b
    ensures |a| <= |b|
  {
    if x :| x in a {
      Subset(a - {x}, b - {x});
    }
  }

  lemma StepKeeps(currencies: set<string>, s: State, step: Step)
    requires Inv(currencies, s) && Can(s, step)
    ensures Inv(currencies, After(s, step))
  {
    var t := After(s, step);
    match step
    case Compute(c, _) => assert FinishedOf(t) == FinishedOf(s);
    case Send(c) => SendKeeps(currencies, s, c);
    case Close =>
    case Receive => ReceiveKeeps(currencies, s);
    case Finish =>
  }

  lemma SendKeeps(currencies: set<string>, s: State, c: string)
    requires Inv(currencies, s) && Can(s, Send(c))
    ensures Inv(currencies, After(s, Send(c)))
  {
    var t := After(s, Send(c));
    assert c !in Senders(s.sent);
    assert forall i | 0 <= i < |s.sent| :: s.sent[i] in s.sent && s.sent[i].currency in Senders(s.sent);
    assert FinishedOf(t) == FinishedOf(s) + {c};
    SendersPush(s.sent, t.sent[|s.sent|]);
    assert t.sent[..s.taken] == s.sent[..s.taken];
  }

  lemma ReceiveKeeps(currencies: set<string>, s: State)
    requires Inv(currencies, s) && Can(s, Receive)
    ensures Inv(currencies, After(s, Receive))
  {
    var t := After(s, Receive);
    var m := s.sent[s.taken];
    assert SentOnce(t) by { assert FinishedOf(t) == FinishedOf(s); }
    if m.outcome.Some? {
      var before, now := s.sent[..s.taken], s.sent[..t.taken];
      assert now[..|now| - 1] == before && now[|now| - 1] == m;
    }
  }

  /** The caller's loop over the closed channel, as code: it stops at the first error. */
  method Collect(results: seq<Message>) returns (r: Caller)
    ensures AllOk(results) ==> r == Returned(Table(results))
    ensures !AllOk(results) ==>
      exists i | 0 <= i < |results| :: AllOk(results[..i]) && results[i].outcome.None? && r == Failed(results[i].currency)
  {
    var balances := map[];
    for i := 0 to |results|
      invariant AllOk(results[..i]) && balances == Table(results[..i])
    {
      if results[i].outcome.None? {
        return Failed(results[i].currency);
      }
      assert results[..i + 1][..i] == results[..i];
      balances := balances[results[i].currency := results[i].outcome.value];
    }
    assert results[..|results|] == results;
    r := Returned(balances);
  }

  // ----- no goroutine is left behind

  function ComputingOf(s: State): set<string> { set c | c in s.workers && s.workers[c].Computing? }

  function Work(s: State): int {
    |ComputingOf(s)| + |s.workers.Keys - FinishedOf(s)| + |s.workers| - s.taken
    + (if s.closed then 0 else 1) + (if s.caller.Collecting? then 1 else 0)
  }

  lemma StepWorks(currencies: set<string>, s: State, step: Step)
    requires Inv(currencies, s) && Can(s, step)
    ensures Work(After(s, step)) < Work(s)
  {
    match step
    case Compute(c, outcome) => ComputeWorks(s, c, outcome);
    case Send(c) => SendWorks(s, c);
    case Close =>
    case Receive =>
    case Finish =>
  }

  lemma ComputeWorks(s: State, c: string, outcome: Outcome)
    requires Can(s, Compute(c, outcome))
    ensures Work(After(s, Compute(c, outcome))) == Work(s) - 1
  {
    var t := After(s, Compute(c, outcome));
    assert t.workers.Keys == s.workers.Keys;
    assert |t.workers| == |t.workers.Keys| && |s.workers| == |s.workers.Keys|;
    assert ComputingOf(t) == ComputingOf(s) - {c};
    assert FinishedOf(t) == FinishedOf(s);
  }

  lemma SendWorks(s: State, c: string)
    requires Can(s, Send(c))
    ensures Work(After(s, Send(c))) == Work(s) - 1
  {
    var t := After(s, Send(c));
    assert t.workers.Keys == s.workers.Keys;
    assert |t.workers| == |t.workers.Keys| && |s.workers| == |s.workers.Keys|;
    assert ComputingOf(t) == ComputingOf(s);
    assert t.workers.Keys - FinishedOf(t) == (s.workers.Keys - FinishedOf(s)) - {c};
  }

  lemma WorkIsNatural(currencies: set<string>, s: State)
    requires Inv(currencies, s)
    ensures Work(s) >= 0
  {
    SendersCount(s.sent);
    Subset(Senders(s.sent), currencies);
    assert |s.workers| == |s.workers.Keys|;
  }

  lemma {:induction false} RunKeeps(currencies: set<string>, s: State, steps: seq<Step>)
    requires Inv(currencies, s) && Runs(s, steps)
    ensures Inv(currencies, RunTo(s, steps))
    ensures |steps| <= Work(s) - Work(RunTo(s, steps))
    decreases |steps|
  {
    if steps == [] {
    } else {
      StepKeeps(currencies, s, steps[0]);
      StepWorks(currencies, s, steps[0]);
      RunKeeps(currencies, After(s, steps[0]), steps[1..]);
    }
  }

  predicate Over(s: State) {
    AllFinished(s) && s.closed && !s.caller.Collecting?
  }

  /**
   * In every interleaving, also after the caller has returned early with an error: no worker ever waits
   * for the channel, the run has at most 3n + 2 steps, and a state with no step left is one where every
   * goroutine has ended and the caller has an answer.
   */
  lemma NobodyIsLeftBehind(currencies: set<string>, steps: seq<Step>)
    requires Runs(Start(currencies), steps)
    ensures |steps| <= 3 * |currencies| + 2
    ensures var s := RunTo(Start(currencies), steps);
      && (forall c | c in s.workers && s.workers[c].Sending? :: Can(s, Send(c)))
      && (Over(s) || exists step :: Can(s, step))
  {
    var start := Start(currencies);
    StartIsRight(currencies);
    RunKeeps(currencies, start, steps);
    var s := RunTo(start, steps);
    WorkIsNatural(currencies, s);
    assert |s.workers| == |s.workers.Keys|;
    forall c | c in s.workers && s.workers[c].Sending? ensures Can(s, Send(c)) {
      RoomForTheRest(currencies, s, c);
    }
    if !AllFinished(s) {
      var c :| c in s.workers && !s.workers[c].Finished?;
      assert if s.workers[c].Computing? then Can(s, Compute(c, None)) else Can(s, Send(c));
    } else if !s.closed {
      assert Can(s, Close);
    } else if s.caller.Collecting? {
      assert if s.taken < |s.sent| then Can(s, Receive) else Can(s, Finish);
    }
  }

  lemma StartIsRight(currencies: set<string>)
    ensures Inv(currencies, Start(currencies))
    ensures Work(Start(currencies)) == 3 * |currencies| + 2
  {
    var s := Start(currencies);
    assert ComputingOf(s) == currencies == s.workers.Keys;
    assert FinishedOf(s) == {};
    assert |s.workers| == |s.workers.Keys|;
  }

  /** What the worker for c answered. */
  ghost predicate Answered(s: State, c: string, outcome: Outcome) {
    Message(c, outcome) in s.sent
  }

  /**
   * The caller's result. A map comes back only if every worker succeeded, and it holds each currency
   * with the balance its own worker computed; an error names a currency whose worker failed. So when
   * all is over the result is a map exactly if no worker failed.
   */
  lemma ResultIsFaithful(currencies: set<string>, steps: seq<Step>)
    requires Runs(Start(currencies), steps)
    ensures var s := RunTo(Start(currencies), steps);
      && (s.caller.Returned? ==> s.caller.balances.Keys == currencies)
      && (s.caller.Returned? ==> forall c, o :: Answered(s, c, o) <==> c in currencies && o == Some(s.caller.balances[c]))
      && (s.caller.Failed? ==> s.caller.currency in currencies && Answered(s, s.caller.currency, None))
      && (Over(s) ==> (s.caller.Returned? <==> forall c | c in currencies :: !Answered(s, c, None)))
  {
    StartIsRight(currencies);
    RunKeeps(currencies, Start(currencies), steps);
    var s := RunTo(Start(currencies), steps);
    if s.caller.Returned? {
      MapIsFaithful(currencies, s);
    } else if s.caller.Failed? {
      assert s.sent[s.taken - 1] in s.sent;
      assert s.caller.currency in Senders(s.sent);
    }
  }

  lemma MapIsFaithful(currencies: set<string>, s: State)
    requires Inv(currencies, s) && s.caller.Returned?
    ensures s.caller.balances.Keys == currencies
    ensures forall c, o :: Answered(s, c, o) <==> c in currencies && o == Some(s.caller.balances[c])
  {
    assert s.sent[..s.taken] == s.sent;
    assert FinishedOf(s) == currencies;
    TableHolds(s.sent);
    forall c | c in currencies ensures Answered(s, c, Some(s.balances[c])) {
      var m :| m in s.sent && m.currency == c;
    }
    forall c, o | Answered(s, c, o) ensures c in currencies && o == Some(s.balances[c]) {
      assert Message(c, o).currency in Senders(s.sent);
    }
  }

  lemma {:induction false} TableHolds(ms: seq<Message>)
    requires AllOk(ms)
    requires forall i, j | 0 <= i < j < |ms| :: ms[i].currency != ms[j].currency
    ensures Table(ms).Keys == Senders(ms)
    ensures forall m | m in ms :: Table(ms)[m.currency] == m.outcome.value
  {
    if ms == [] {
    } else {
      var front, last := ms[..|ms| - 1], ms[|ms| - 1];
      TableHolds(front);
      SendersPush(front, last);
      assert ms == front + [last];
    }
  }
}

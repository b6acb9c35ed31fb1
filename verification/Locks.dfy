/**
 * Ordered account locking. The list a post locks is sorted and deduplicated, rows are locked in that
 * order and kept to the end of the transaction; so posts never deadlock and always finish.
 */
module Locks {
  import opened Base

  // ----- the order on account ids

  predicate Less(a: string, b: string) {
    b != [] && (a == [] || a[0] < b[0] || (a[0] == b[0] && Less(a[1..], b[1..])))
  }

  lemma {:induction false} LessTotal(a: string, b: string)
    ensures Less(a, b) || a == b || Less(b, a)
  {
    if a != [] && b != [] && a[0] == b[0] {
      LessTotal(a[1..], b[1..]);
      if a[1..] == b[1..] {
        assert a == [a[0]] + a[1..] && b == [b[0]] + b[1..];
      }
    }
  }

  lemma {:induction false} LessTransitive(a: string, b: string, c: string)
    requires Less(a, b) && Less(b, c)
    ensures Less(a, c)
  {
    if a != [] && a[0] == b[0] == c[0] {
      LessTransitive(a[1..], b[1..], c[1..]);
    }
  }

  lemma {:induction false} LessIrreflexive(a: string)
    ensures !Less(a, a)
  {
    if a == [] {
    } else {
      LessIrreflexive(a[1..]);
    }
  }

  ghost predicate Ascending(s: seq<string>) {
    forall i, j | 0 <= i < j < |s| :: Less(s[i], s[j]) || s[i] == s[j]
  }

  ghost predicate StrictlyAscending(s: seq<string>) {
    forall i, j | 0 <= i < j < |s| :: Less(s[i], s[j])
  }

  ghost predicate SameMembers(s: seq<string>, t: seq<string>) {
    forall x :: x in s <==> x in t
  }

  // ----- sorting, as the library call promises it

  function Place(x: string, s: seq<string>): seq<string> {
    if s == [] || !Less(s[0], x) then [x] + s else [s[0]] + Place(x, s[1..])
  }

  function Sort(s: seq<string>): seq<string> {
    if s == [] then [] else Place(s[0], Sort(s[1..]))
  }

  lemma {:induction false} PlacePermutes(x: string, s: seq<string>)
    ensures multiset(Place(x, s)) == multiset(s) + multiset{x}
  {
    if s != [] && Less(s[0], x) {
      PlacePermutes(x, s[1..]);
      assert s == [s[0]] + s[1..];
    }
  }

  lemma {:induction false} PlaceKeepsOrder(x: string, s: seq<string>)
    requires Ascending(s)
    ensures Ascending(Place(x, s))
  {
    if s == [] {
    } else {
      if Less(s[0], x) {
        PlaceKeepsOrder(x, s[1..]);
        PlacePermutes(x, s[1..]);
        var r := Place(x, s[1..]);
        forall i | 0 <= i < |r| ensures Less(s[0], r[i]) || s[0] == r[i] {
          assert r[i] in multiset(r);
        }
      } else {
        LessTotal(s[0], x);
        forall i | 0 < i < |s| ensures Less(x, s[i]) || x == s[i] {
          if s[0] != s[i] && x != s[0] {
            LessTransitive(x, s[0], s[i]);
          }
        }
      }
    }
  }

  lemma {:induction false} SortSorts(s: seq<string>)
    ensures Ascending(Sort(s)) && multiset(Sort(s)) == multiset(s)
  {
    if s == [] {
    } else {
      SortSorts(s[1..]);
      PlaceKeepsOrder(s[0], Sort(s[1..]));
      PlacePermutes(s[0], Sort(s[1..]));
      assert s == [s[0]] + s[1..];
    }
  }

  /** Dropping every value equal to the one before it. */
  function Dedup(s: seq<string>): seq<string> {
    if |s| <= 1 then s
    else
      var n := |s| - 1;
      Dedup(s[..n]) + if s[n] == s[n - 1] then [] else [s[n]]
  }

  /** The rows one post locks, in order. */
  function Plan(accountIDs: seq<string>): seq<string> { Dedup(Sort(accountIDs)) }

  lemma {:induction false} DedupIsStrict(s: seq<string>)
    requires Ascending(s)
    ensures StrictlyAscending(Dedup(s)) && SameMembers(Dedup(s), s)
    ensures s != [] ==> Dedup(s) != [] && Dedup(s)[|Dedup(s)| - 1] == s[|s| - 1]
  {
    if |s| <= 1 {
    } else {
      var n := |s| - 1;
      DedupIsStrict(s[..n]);
      assert s == s[..n] + [s[n]];
      if s[n] != s[n - 1] {
        AppendGreater(Dedup(s[..n]), s[n]);
      }
    }
  }

  lemma AppendGreater(s: seq<string>, x: string)
    requires s != [] && StrictlyAscending(s) && Less(s[|s| - 1], x)
    ensures StrictlyAscending(s + [x])
  {
    forall i | 0 <= i < |s| ensures Less(s[i], x) {
      if i < |s| - 1 {
        LessTransitive(s[i], s[|s| - 1], x);
      }
    }
  }

  /** The plan is strictly ascending and names exactly the requested accounts. */
  lemma PlanIsOrdered(accountIDs: seq<string>)
    ensures StrictlyAscending(Plan(accountIDs)) && SameMembers(Plan(accountIDs), accountIDs)
  {
    SortSorts(accountIDs);
    DedupIsStrict(Sort(accountIDs));
    forall x ensures x in Sort(accountIDs) <==> x in accountIDs {
      assert x in multiset(Sort(accountIDs)) <==> x in multiset(accountIDs);
    }
  }

  // ----- the two list operations of the controller

  method UniqueStrings(sortedValues: seq<string>) returns (unique: seq<string>)
    ensures unique == Dedup(sortedValues)
  {
    unique := [];
    var last := "";
    var i := 0;
    while i < |sortedValues|
      invariant 0 <= i <= |sortedValues|
      invariant i > 0 ==> last == sortedValues[i - 1]
      invariant unique == Dedup(sortedValues[..i])
    {
      var value := sortedValues[i];
      assert sortedValues[..i + 1][..i] == sortedValues[..i];
      if i == 0 || value != last {
        unique := unique + [value];
        last := value;
      }
      i := i + 1;
    }
    assert sortedValues[..i] == sortedValues;
  }

  datatype LockFailure = Missing(account: string) | QueryFailed(account: string)

  /**
   * The row locks one call asks for, in order. It stops at the first id whose lock query fails or finds
   * no account row; the locks taken so far then go with the rollback.
   */
  method LockMultipleAccountsForUpdate(rows: set<string>, failing: set<string>, accountIDs: seq<string>)
      returns (taken: seq<string>, failure: Option<LockFailure>)
    ensures taken <= Plan(accountIDs)
    ensures forall x | x in taken :: x in rows && x !in failing
    ensures failure.None? ==> taken == Plan(accountIDs)
    ensures failure.Some? ==>
      && |taken| < |Plan(accountIDs)|
      && var x := Plan(accountIDs)[|taken|];
      && failure.value == (if x in failing then QueryFailed(x) else Missing(x))
      && (x in failing || x !in rows)
    ensures failure.Some? <==> exists x | x in accountIDs :: x !in rows || x in failing
  {
    taken, failure := [], None;
    PlanIsOrdered(accountIDs);
    var uniqueAccountIDs := UniqueStrings(Sort(accountIDs));
    var i := 0;
    while i < |uniqueAccountIDs|
      invariant 0 <= i <= |uniqueAccountIDs|
      invariant taken == uniqueAccountIDs[..i]
      invariant forall x | x in taken :: x in rows && x !in failing
    {
      var accountID := uniqueAccountIDs[i];
      assert accountID in Plan(accountIDs);
      if accountID in failing {
        return taken, Some(QueryFailed(accountID));
      }
      if accountID !in rows {
        return taken, Some(Missing(accountID));
      }
      taken := taken + [accountID];
      i := i + 1;
    }
    assert uniqueAccountIDs[..i] == uniqueAccountIDs;
  }

  // ----- many posts at once

  /** A post has taken the first `next` locks of its plan, and holds them until it is done. */
  datatype PostState = PostState(plan: seq<string>, next: nat, done: bool)

  type Posts = seq<PostState>

  ghost predicate Holds(p: PostState, a: string)
    requires p.next <= |p.plan|
  {
    !p.done && a in p.plan[..p.next]
  }

  /** Plans are ascending, and no row is locked twice. */
  ghost predicate Sound(s: Posts) {
    && (forall i | 0 <= i < |s| :: s[i].next <= |s[i].plan| && StrictlyAscending(s[i].plan))
    && (forall i, j, a | 0 <= i < j < |s| && Holds(s[i], a) :: !Holds(s[j], a))
  }

  datatype LockStep = Acquire(post: nat) | Finish(post: nat) | Abort(post: nat)

  ghost predicate CanStep(s: Posts, step: LockStep)
    requires Sound(s)
  {
    && step.post < |s|
    && !s[step.post].done
    && match step
       case Acquire(i) =>
         s[i].next < |s[i].plan| && forall j | 0 <= j < |s| && j != i :: !Holds(s[j], s[i].plan[s[i].next])
       case Finish(i) => s[i].next == |s[i].plan|
       case Abort(_) => true
  }

  function Stepped(s: Posts, step: LockStep): Posts
    requires step.post < |s|
  {
    var p := s[step.post];
    s[step.post := if step.Acquire? then p.(next := p.next + 1) else p.(done := true)]
  }

  lemma StepKeepsSound(s: Posts, step: LockStep)
    requires Sound(s) && CanStep(s, step)
    ensures Sound(Stepped(s, step))
  {
    var t, i := Stepped(s, step), step.post;
    forall j, a | 0 <= j < |s| && Holds(t[j], a)
      ensures Holds(s[j], a) || (step.Acquire? && j == i && a == s[i].plan[s[i].next])
    {
      if j == i && step.Acquire? {
        assert t[i].plan[..t[i].next] == s[i].plan[..s[i].next] + [s[i].plan[s[i].next]];
      }
    }
  }

  ghost predicate Waiting(p: PostState) {
    !p.done && p.next < |p.plan|
  }

  ghost function Wanted(p: PostState): string
    requires Waiting(p)
  {
    p.plan[p.next]
  }

  /** The undone post, among the first n, that waits for the greatest row; -1 if none waits. */
  ghost function Furthest(s: Posts, n: nat): (r: int)
    requires n <= |s|
    ensures -1 <= r < n
    ensures r >= 0 ==> Waiting(s[r])
    ensures forall i | 0 <= i < n && Waiting(s[i]) ::
      r >= 0 && (Less(Wanted(s[i]), Wanted(s[r])) || Wanted(s[i]) == Wanted(s[r]))
  {
    if n == 0 then -1
    else
      var r := Furthest(s, n - 1);
      if !Waiting(s[n - 1]) then r
      else if r == -1 then n - 1
      else
        LessTotal(Wanted(s[r]), Wanted(s[n - 1]));
        if Less(Wanted(s[r]), Wanted(s[n - 1])) then
          assert forall i | 0 <= i < n - 1 && Waiting(s[i]) && Less(Wanted(s[i]), Wanted(s[r])) ::
            Less(Wanted(s[i]), Wanted(s[n - 1])) by {
            forall i | 0 <= i < n - 1 && Waiting(s[i]) && Less(Wanted(s[i]), Wanted(s[r]))
              ensures Less(Wanted(s[i]), Wanted(s[n - 1]))
            {
              LessTransitive(Wanted(s[i]), Wanted(s[r]), Wanted(s[n - 1]));
            }
          }
          n - 1
        else r
  }

  /** No deadlock: while some post is not done, some post can take its next lock or finish. */
  lemma NoDeadlock(s: Posts)
    requires Sound(s) && exists i | 0 <= i < |s| :: !s[i].done
    ensures exists step: LockStep :: !step.Abort? && CanStep(s, step)
  {
    if i :| 0 <= i < |s| && !s[i].done && s[i].next == |s[i].plan| {
      assert CanStep(s, Finish(i));
    } else {
      var i0 :| 0 <= i0 < |s| && !s[i0].done;
      assert Waiting(s[i0]);
      var i := Furthest(s, |s|);
      if j :| 0 <= j < |s| && j != i && Holds(s[j], Wanted(s[i])) {
        assert Waiting(s[j]);
        var a :| 0 <= a < s[j].next && s[j].plan[a] == Wanted(s[i]);
        assert Less(s[j].plan[a], Wanted(s[j]));
        if Less(Wanted(s[j]), Wanted(s[i])) {
          LessTransitive(Wanted(s[i]), Wanted(s[j]), Wanted(s[i]));
        }
        LessIrreflexive(Wanted(s[i]));
      } else {
        assert CanStep(s, Acquire(i));
      }
    }
  }

  /** Lock and finish steps still to be made. */
  function Work(s: Posts): nat
    requires forall i | 0 <= i < |s| :: s[i].next <= |s[i].plan|
  {
    if s == [] then 0
    else
      var p := s[|s| - 1];
      Work(s[..|s| - 1]) + if p.done then 0 else |p.plan| - p.next + 1
  }

  lemma {:induction false} WorkDecreases(s: Posts, step: LockStep)
    requires forall i | 0 <= i < |s| :: s[i].next <= |s[i].plan|
    requires step.post < |s| && !s[step.post].done
    requires step.Acquire? ==> s[step.post].next < |s[step.post].plan|
    ensures Work(Stepped(s, step)) < Work(s)
  {
    var n := |s| - 1;
    if step.post == n {
      assert Stepped(s, step)[..n] == s[..n];
    } else {
      WorkDecreases(s[..n], step);
      assert Stepped(s, step)[..n] == Stepped(s[..n], step);
    }
  }

  // ----- runs

  /** Every request begins with its plan and no lock. */
  function Started(requests: seq<seq<string>>): Posts {
    seq(|requests|, i requires 0 <= i < |requests| => PostState(Plan(requests[i]), 0, false))
  }

  ghost predicate LockRun(s: Posts, steps: seq<LockStep>, t: Posts)
    decreases |steps|
  {
    if steps == [] then s == t
    else Sound(s) && CanStep(s, steps[0]) && LockRun(Stepped(s, steps[0]), steps[1..], t)
  }

  lemma {:induction false} RunIsSoundAndShort(s: Posts, steps: seq<LockStep>, t: Posts)
    requires Sound(s) && LockRun(s, steps, t)
    ensures Sound(t) && |steps| + Work(t) <= Work(s)
    decreases |steps|
  {
    if steps == [] {
    } else {
      StepKeepsSound(s, steps[0]);
      WorkDecreases(s, steps[0]);
      RunIsSoundAndShort(Stepped(s, steps[0]), steps[1..], t);
    }
  }

  /**
   * Any number of posts over any account lists: every reachable state keeps rows exclusive, has a
   * step other than aborting unless all posts are done, and no run is longer than the initial work.
   */
  lemma PostsNeverDeadlock(requests: seq<seq<string>>, steps: seq<LockStep>, t: Posts)
    requires LockRun(Started(requests), steps, t)
    ensures Sound(t)
    ensures (forall i | 0 <= i < |t| :: t[i].done) || exists step: LockStep :: !step.Abort? && CanStep(t, step)
    ensures |steps| <= Work(Started(requests))
  {
    var s := Started(requests);
    forall i | 0 <= i < |s| ensures StrictlyAscending(s[i].plan) {
      PlanIsOrdered(requests[i]);
    }
    RunIsSoundAndShort(s, steps, t);
    if i :| 0 <= i < |t| && !t[i].done {
      NoDeadlock(t);
    }
  }
}

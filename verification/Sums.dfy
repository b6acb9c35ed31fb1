/** Finite sums over sequences and over sets, with the rearrangements the balance folds need. */
module Sums {

  function Sum<T>(s: seq<T>, f: T -> int): int {
    if s == [] then 0 else Sum(s[..|s| - 1], f) + f(s[|s| - 1])
  }

  lemma SumPush<T>(s: seq<T>, x: T, f: T -> int)
    ensures Sum(s + [x], f) == Sum(s, f) + f(x)
  {
    assert (s + [x])[..|s|] == s;
  }

  lemma {:induction false} SumConcat<T>(a: seq<T>, b: seq<T>, f: T -> int)
    ensures Sum(a + b, f) == Sum(a, f) + Sum(b, f)
  {
    if b == [] {
      assert a + b == a;
    } else {
      var front, last := b[..|b| - 1], b[|b| - 1];
      SumConcat(a, front, f);
      assert a + b == (a + front) + [last];
      SumPush(a + front, last, f);
    }
  }

  /** Two sequences with pointwise equal contributions have equal sums. */
  lemma {:induction false} SumSame<S, T>(s: seq<S>, t: seq<T>, f: S -> int, g: T -> int)
    requires |s| == |t|
    requires forall i | 0 <= i < |s| :: f(s[i]) == g(t[i])
    ensures Sum(s, f) == Sum(t, g)
  {
    if s == [] {
    } else {
      SumSame(s[..|s| - 1], t[..|t| - 1], f, g);
    }
  }

  lemma {:induction false} SumUpdate<T>(s: seq<T>, i: int, x: T, f: T -> int)
    requires 0 <= i < |s|
    ensures Sum(s[i := x], f) == Sum(s, f) - f(s[i]) + f(x)
  {
    var n := |s| - 1;
    if i == n {
      assert s[i := x][..n] == s[..n];
    } else {
      assert s[i := x][..n] == s[..n][i := x];
      SumUpdate(s[..n], i, x, f);
    }
  }

  lemma {:induction false} SumPlus<T>(s: seq<T>, f: T -> int, g: T -> int, h: T -> int)
    requires forall i | 0 <= i < |s| :: h(s[i]) == f(s[i]) + g(s[i])
    ensures Sum(s, h) == Sum(s, f) + Sum(s, g)
  {
    if s == [] {
    } else {
      SumPlus(s[..|s| - 1], f, g, h);
    }
  }

  lemma {:induction false} SumZero<T>(s: seq<T>, f: T -> int)
    requires forall i | 0 <= i < |s| :: f(s[i]) == 0
    ensures Sum(s, f) == 0
  {
    if s == [] {
    } else {
      SumZero(s[..|s| - 1], f);
    }
  }

  lemma {:induction false} SumNonNegative<T>(s: seq<T>, f: T -> int)
    requires forall i | 0 <= i < |s| :: f(s[i]) >= 0
    ensures Sum(s, f) >= 0
  {
    if s == [] {
    } else {
      SumNonNegative(s[..|s| - 1], f);
    }
  }

  /** The order of the summands does not matter. */
  lemma {:induction false} SumPermuted<T>(s: seq<T>, t: seq<T>, f: T -> int)
    requires multiset(s) == multiset(t)
    ensures Sum(s, f) == Sum(t, f)
  {
    if s == [] {
      assert |multiset(t)| == 0;
    } else {
      var front, x := s[..|s| - 1], s[|s| - 1];
      var rest := Without(t, s, x);
      assert s == front + [x];
      assert multiset(s) == multiset(front) + multiset{x};
      SumPermuted(front, rest, f);
      SumWithout(t, s, x, f);
    }
  }

  /** t with one occurrence of x taken out; s is a rearrangement of t in which x occurs. */
  ghost function Without<T>(t: seq<T>, s: seq<T>, x: T): (r: seq<T>)
    requires x in multiset(s) && multiset(s) == multiset(t)
    ensures multiset(r) == multiset(t) - multiset{x}
    ensures exists j | 0 <= j < |t| :: t[j] == x && r == t[..j] + t[j + 1..]
  {
    assert x in multiset(t);
    var j :| 0 <= j < |t| && t[j] == x;
    assert t == t[..j] + [x] + t[j + 1..];
    t[..j] + t[j + 1..]
  }

  lemma SumWithout<T>(t: seq<T>, s: seq<T>, x: T, f: T -> int)
    requires x in multiset(s) && multiset(s) == multiset(t)
    ensures Sum(t, f) == Sum(Without(t, s, x), f) + f(x)
  {
    var j :| 0 <= j < |t| && t[j] == x && Without(t, s, x) == t[..j] + t[j + 1..];
    assert t == t[..j] + [x] + t[j + 1..];
    SumConcat(t[..j] + [x], t[j + 1..], f);
    SumPush(t[..j], x, f);
    SumConcat(t[..j], t[j + 1..], f);
  }

  ghost function AnyOf<T(!new)>(d: set<T>): (x: T)
    requires d != {}
    ensures x in d
  {
    var x :| x in d; x
  }

  ghost function SumSet<T(!new)>(d: set<T>, f: T -> int): int {
    if d == {} then 0 else var x :| x in d; f(x) + SumSet(d - {x}, f)
  }

  lemma {:induction false} SumSetRemove<T(!new)>(d: set<T>, x: T, f: T -> int)
    requires x in d
    ensures SumSet(d, f) == f(x) + SumSet(d - {x}, f)
    decreases |d|
  {
    var y :| y in d && SumSet(d, f) == f(y) + SumSet(d - {y}, f);
    if y != x {
      SumSetRemove(d - {y}, x, f);
      assert d - {y} - {x} == d - {x} - {y};
      SumSetRemove(d - {x}, y, f);
    }
  }

  lemma {:induction false} SumSetZero<T(!new)>(d: set<T>, f: T -> int)
    requires forall x | x in d :: f(x) == 0
    ensures SumSet(d, f) == 0
    decreases |d|
  {
    if d == {} {
    } else {
      var x :| x in d;
      SumSetRemove(d, x, f);
      SumSetZero(d - {x}, f);
    }
  }

  lemma {:induction false} SumSetSame<T(!new)>(d: set<T>, f: T -> int, g: T -> int)
    requires forall x | x in d :: f(x) == g(x)
    ensures SumSet(d, f) == SumSet(d, g)
    decreases |d|
  {
    if d == {} {
    } else {
      var x :| x in d;
      SumSetRemove(d, x, f);
      SumSetRemove(d, x, g);
      SumSetSame(d - {x}, f, g);
    }
  }

  lemma {:induction false} SumSetPlus<T(!new)>(d: set<T>, f: T -> int, g: T -> int, h: T -> int)
    requires forall x | x in d :: h(x) == f(x) + g(x)
    ensures SumSet(d, h) == SumSet(d, f) + SumSet(d, g)
    decreases |d|
  {
    if d == {} {
    } else {
      var x :| x in d;
      SumSetRemove(d, x, f);
      SumSetRemove(d, x, g);
      SumSetRemove(d, x, h);
      SumSetPlus(d - {x}, f, g, h);
    }
  }

  /** A function that is zero on d except possibly at x sums to its value at x. */
  lemma SumSetSingle<T(!new)>(d: set<T>, x: T, f: T -> int)
    requires x in d
    requires forall y | y in d && y != x :: f(y) == 0
    ensures SumSet(d, f) == f(x)
  {
    SumSetRemove(d, x, f);
    SumSetZero(d - {x}, f);
  }
}

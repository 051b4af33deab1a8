/** Finite sums of reals: over an index range, and over a list of indices. */
module Sums {

  function SumTo(n: nat, f: nat -> real): real {
    if n == 0 then 0.0 else SumTo(n - 1, f) + f(n - 1)
  }

  lemma {:induction false} SumEqual(n: nat, f: nat -> real, g: nat -> real)
    requires forall i: nat | i < n :: f(i) == g(i)
    ensures SumTo(n, f) == SumTo(n, g)
  {
    if n > 0 { SumEqual(n - 1, f, g); }
  }

  lemma {:induction false} SumAdd(n: nat, f: nat -> real, g: nat -> real, h: nat -> real)
    requires forall i: nat | i < n :: h(i) == f(i) + g(i)
    ensures SumTo(n, h) == SumTo(n, f) + SumTo(n, g)
  {
    if n > 0 { SumAdd(n - 1, f, g, h); }
  }

  lemma {:induction false} SumScale(n: nat, c: real, f: nat -> real, h: nat -> real)
    requires forall i: nat | i < n :: h(i) == c * f(i)
    ensures SumTo(n, h) == c * SumTo(n, f)
  {
    if n > 0 { SumScale(n - 1, c, f, h); }
  }

  lemma {:induction false} SumZero(n: nat, f: nat -> real)
    requires forall i: nat | i < n :: f(i) == 0.0
    ensures SumTo(n, f) == 0.0
  {
    if n > 0 { SumZero(n - 1, f); }
  }

  lemma {:induction false} SumSplit(m: nat, n: nat, f: nat -> real, g: nat -> real)
    requires forall i: nat | i < n :: g(i) == f(m + i)
    ensures SumTo(m + n, f) == SumTo(m, f) + SumTo(n, g)
  {
    if n > 0 { SumSplit(m, n - 1, f, g); }
  }

  /** Exchanging the order of a double sum. */
  lemma {:induction false} SumSwap(m: nat, n: nat, f: (nat, nat) -> real)
    ensures SumTo(m, (i: nat) => SumTo(n, (j: nat) => f(i, j))) == SumTo(n, (j: nat) => SumTo(m, (i: nat) => f(i, j)))
  {
    if m == 0 {
      SumZero(n, (j: nat) => SumTo(m, (i: nat) => f(i, j)));
    } else {
      SumSwap(m - 1, n, f);
      var rows := (j: nat) => SumTo(m - 1, (i: nat) => f(i, j));
      var last := (j: nat) => f(m - 1, j);
      var all := (j: nat) => SumTo(m, (i: nat) => f(i, j));
      forall j: nat ensures all(j) == rows(j) + last(j) {
        SumEqual(m - 1, (i: nat) => f(i, j), (i: nat) => f(i, j));
      }
      SumAdd(n, rows, last, all);
    }
  }

  lemma {:induction false} SumFirst(n: nat, f: nat -> real, rest: nat -> real)
    requires forall i: nat | i < n :: rest(i) == f(i + 1)
    ensures SumTo(n + 1, f) == f(0) + SumTo(n, rest)
  {
    if n > 0 { SumFirst(n - 1, f, rest); }
  }

  /** A stretch of `f` read backwards sums like the stretch read forwards. */
  lemma {:induction false} SumReverse(n: nat, a: nat, f: nat -> real, backwards: nat -> real, forwards: nat -> real)
    requires forall i: nat | i < n :: backwards(i) == f(a + n - 1 - i)
    requires forall i: nat | i < n :: forwards(i) == f(a + i)
    ensures SumTo(n, backwards) == SumTo(n, forwards)
  {
    if n > 0 {
      var rest := (i: nat) => forwards(i + 1);
      SumReverse(n - 1, a + 1, f, backwards, rest);
      SumFirst(n - 1, forwards, rest);
    }
  }

  function Dot(a: seq<real>, b: seq<real>): real
    requires |a| == |b|
  {
    SumTo(|a|, Products(a, b))
  }

  function Products(a: seq<real>, b: seq<real>): nat -> real
    requires |a| == |b|
  {
    (i: nat) => if i < |a| then a[i] * b[i] else 0.0
  }

  /** Sum over a list of indices. */
  function SumOver(ps: seq<nat>, f: nat -> real): real {
    if ps == [] then 0.0 else SumOver(ps[..|ps| - 1], f) + f(ps[|ps| - 1])
  }

  function Range(n: nat): (ps: seq<nat>)
    ensures |ps| == n && forall i | 0 <= i < n :: ps[i] == i
  {
    if n == 0 then [] else Range(n - 1) + [n - 1]
  }

  lemma {:induction false} SumOverRange(n: nat, f: nat -> real)
    ensures SumOver(Range(n), f) == SumTo(n, f)
  {
    if n > 0 {
      SumOverRange(n - 1, f);
      assert Range(n)[..n - 1] == Range(n - 1);
    }
  }

  lemma {:induction false} SumOverConcat(a: seq<nat>, b: seq<nat>, f: nat -> real)
    ensures SumOver(a + b, f) == SumOver(a, f) + SumOver(b, f)
  {
    if b == [] {
      assert a + b == a;
    } else {
      SumOverConcat(a, b[..|b| - 1], f);
      assert (a + b)[..|a + b| - 1] == a + b[..|b| - 1];
    }
  }

  lemma {:induction false} SumOverEqual(ps: seq<nat>, f: nat -> real, g: nat -> real)
    requires forall k | 0 <= k < |ps| :: f(ps[k]) == g(ps[k])
    ensures SumOver(ps, f) == SumOver(ps, g)
  {
    if ps != [] { SumOverEqual(ps[..|ps| - 1], f, g); }
  }

  lemma {:induction false} SumOverScale(ps: seq<nat>, c: real, f: nat -> real, h: nat -> real)
    requires forall k | 0 <= k < |ps| :: h(ps[k]) == c * f(ps[k])
    ensures SumOver(ps, h) == c * SumOver(ps, f)
  {
    if ps != [] { SumOverScale(ps[..|ps| - 1], c, f, h); }
  }

  lemma {:induction false} SumOverRemove(ps: seq<nat>, k: nat, f: nat -> real)
    requires k < |ps|
    ensures SumOver(ps, f) == SumOver(ps[..k] + ps[k + 1..], f) + f(ps[k])
  {
    var n := |ps| - 1;
    if k == n {
      assert ps[..k] + ps[k + 1..] == ps[..n];
    } else {
      SumOverRemove(ps[..n], k, f);
      assert (ps[..k] + ps[k + 1..])[..n - 1] == ps[..n][..k] + ps[..n][k + 1..];
    }
  }

  lemma MultisetRemove(s: seq<nat>, k: nat)
    requires k < |s|
    ensures multiset(s[..k] + s[k + 1..]) == multiset(s) - multiset{s[k]}
  {
    assert s == s[..k] + [s[k]] + s[k + 1..];
  }

  lemma FindLast(a: seq<nat>, b: seq<nat>) returns (k: nat)
    requires a != [] && multiset(a) == multiset(b)
    ensures k < |b| && b[k] == a[|a| - 1] && multiset(a[..|a| - 1]) == multiset(b[..k] + b[k + 1..])
  {
    var x := a[|a| - 1];
    assert x in multiset(b);
    k :| k < |b| && b[k] == x;
    MultisetRemove(a, |a| - 1);
    MultisetRemove(b, k);
    assert a[..|a| - 1] + a[|a|..] == a[..|a| - 1];
  }

  /** A sum does not depend on the order of its terms. */
  lemma {:induction false} SumOverPermutation(a: seq<nat>, b: seq<nat>, f: nat -> real)
    requires multiset(a) == multiset(b)
    ensures SumOver(a, f) == SumOver(b, f)
    decreases |a|
  {
    if a == [] {
      assert b == [] by { assert |multiset(b)| == 0; }
    } else {
      var k := FindLast(a, b);
      SumOverRemove(b, k, f);
      SumOverPermutation(a[..|a| - 1], b[..k] + b[k + 1..], f);
    }
  }

  /** How often `k` occurs in a list. */
  function Count(ps: seq<nat>, k: nat): nat {
    if ps == [] then 0 else Count(ps[..|ps| - 1], k) + if ps[|ps| - 1] == k then 1 else 0
  }

  lemma CountAppend(ps: seq<nat>, x: nat, k: nat)
    ensures Count(ps + [x], k) == Count(ps, k) + if x == k then 1 else 0
  {
    assert (ps + [x])[..|ps|] == ps;
  }

  lemma {:induction false} CountConcat(a: seq<nat>, b: seq<nat>, k: nat)
    ensures Count(a + b, k) == Count(a, k) + Count(b, k)
  {
    if b == [] {
      assert a + b == a;
    } else {
      CountConcat(a, b[..|b| - 1], k);
      assert (a + b)[..|a + b| - 1] == a + b[..|b| - 1];
    }
  }

  lemma {:induction false} CountInMultiset(ps: seq<nat>, k: nat)
    ensures multiset(ps)[k] == Count(ps, k)
  {
    if ps != [] {
      CountInMultiset(ps[..|ps| - 1], k);
      assert ps == ps[..|ps| - 1] + [ps[|ps| - 1]];
    }
  }

  lemma {:induction false} CountRange(n: nat, k: nat)
    ensures Count(Range(n), k) == if k < n then 1 else 0
  {
    if n > 0 {
      CountRange(n - 1, k);
      assert Range(n)[..n - 1] == Range(n - 1);
    }
  }

  /** A list that holds every number below `n` exactly once and nothing else. */
  ghost predicate EachOnce(ps: seq<nat>, n: nat) {
    forall k: nat :: Count(ps, k) == if k < n then 1 else 0
  }

  lemma EachOnceIsPermutation(ps: seq<nat>, n: nat)
    requires EachOnce(ps, n)
    ensures multiset(ps) == multiset(Range(n))
  {
    forall k: nat ensures multiset(ps)[k] == multiset(Range(n))[k] {
      CountInMultiset(ps, k);
      CountInMultiset(Range(n), k);
      CountRange(n, k);
    }
  }

  /** Summing over each number below `n` once, in any order, is the plain sum. */
  lemma SumOverEachOnce(ps: seq<nat>, n: nat, f: nat -> real)
    requires EachOnce(ps, n)
    ensures SumOver(ps, f) == SumTo(n, f)
  {
    EachOnceIsPermutation(ps, n);
    SumOverPermutation(ps, Range(n), f);
    SumOverRange(n, f);
  }
}

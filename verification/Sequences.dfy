/** Small notions shared by all modules: bounds of integers, lists of indices, regrouping of concatenations. */
module Sequences {

  function Min(a: int, b: int): int {
    if a <= b then a else b
  }

  function Max(a: int, b: int): int {
    if a >= b then a else b
  }

  function Clamp(x: int, low: int, high: int): (c: int)
    ensures low <= high ==> low <= c <= high
  {
    Min(Max(x, low), high)
  }

  predicate Indices(indices: seq<nat>, n: nat) {
    forall k | 0 <= k < |indices| :: indices[k] < n
  }

  predicate Distinct(indices: seq<nat>) {
    forall i, j | 0 <= i < j < |indices| :: indices[i] != indices[j]
  }

  lemma Reassociate<T>(a: seq<T>, b: seq<T>, c: seq<T>)
    ensures a + b + c == a + (b + c)
  {
  }

  lemma SliceIs<T>(all: seq<T>, offset: nat, part: seq<T>)
    requires offset + |part| <= |all| && forall j: nat | j < |part| :: all[offset + j] == part[j]
    ensures all[offset..offset + |part|] == part
  {
  }

  lemma SliceOfSlice<T>(s: seq<T>, a: nat, b: nat, c: nat, d: nat)
    requires a <= b <= |s| && c <= d <= b - a
    ensures s[a..b][c..d] == s[a + c..a + d]
  {
    var inner := s[a..b];
    forall i | 0 <= i < d - c ensures inner[c..d][i] == s[a + c..a + d][i] {
      assert inner[c..d][i] == inner[c + i] == s[a + (c + i)];
    }
  }

  lemma SliceOfTail<T>(s: seq<T>, from: nat, tail: seq<T>, a: nat, b: nat)
    requires from <= |s| && s[from..] == tail && a <= b <= |tail|
    ensures s[from + a..from + b] == tail[a..b]
  {
    forall i | 0 <= i < b - a ensures s[from + a..from + b][i] == tail[a..b][i] {
      assert tail[a + i] == s[from..][a + i] == s[from + (a + i)];
    }
  }
}

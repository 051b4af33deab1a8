/** The indexed tensor operations the dispatch is made of: select, put, add, nonzero, bincount and sort. */
module IndexOps {
  import opened Sequences
  import opened Sums
  import opened Vectors

  function Select<T>(s: seq<T>, indices: seq<nat>): (r: seq<T>)
    requires Indices(indices, |s|)
    ensures |r| == |indices| && forall k | 0 <= k < |indices| :: r[k] == s[indices[k]]
  {
    seq(|indices|, k requires 0 <= k < |indices| => s[indices[k]])
  }

  // ----- put

  function Put<T>(base: seq<T>, indices: seq<nat>, values: seq<T>): (r: seq<T>)
    requires |indices| == |values| && Indices(indices, |base|)
    ensures |r| == |base|
  {
    if indices == [] then base
    else var n := |indices| - 1; Put(base, indices[..n], values[..n])[indices[n] := values[n]]
  }

  lemma {:induction false} PutAt<T>(base: seq<T>, indices: seq<nat>, values: seq<T>, k: nat)
    requires |indices| == |values| && Indices(indices, |base|) && Distinct(indices) && k < |indices|
    ensures Put(base, indices, values)[indices[k]] == values[k]
  {
    var n := |indices| - 1;
    if k < n { PutAt(base, indices[..n], values[..n], k); }
  }

  lemma {:induction false} PutElsewhere<T>(base: seq<T>, indices: seq<nat>, values: seq<T>, p: nat)
    requires |indices| == |values| && Indices(indices, |base|) && p < |base| && p !in indices
    ensures Put(base, indices, values)[p] == base[p]
  {
    if indices != [] {
      var n := |indices| - 1;
      assert p !in indices[..n];
      PutElsewhere(base, indices[..n], values[..n], p);
    }
  }

  // ----- add

  function IndexAdd(base: seq<Vec>, indices: seq<nat>, rows: seq<Vec>, width: nat): (r: seq<Vec>)
    requires |indices| == |rows| && Indices(indices, |base|) && Widths(base, width) && Widths(rows, width)
    ensures |r| == |base| && Widths(r, width)
  {
    if indices == [] then base
    else
      var n := |indices| - 1;
      var before := IndexAdd(base, indices[..n], rows[..n], width);
      before[indices[n] := Add(before[indices[n]], rows[n])]
  }

  /** What row `k` adds to entry (t, c). */
  function Landing(indices: seq<nat>, rows: seq<Vec>, width: nat, t: nat, c: nat): nat -> real
    requires |indices| == |rows| && Widths(rows, width) && c < width
  {
    (k: nat) => if k < |indices| && indices[k] == t then rows[k][c] else 0.0
  }

  lemma {:induction false} IndexAddEntry(base: seq<Vec>, indices: seq<nat>, rows: seq<Vec>, width: nat, t: nat, c: nat)
    requires |indices| == |rows| && Indices(indices, |base|) && Widths(base, width) && Widths(rows, width)
    requires t < |base| && c < width
    ensures IndexAdd(base, indices, rows, width)[t][c] == base[t][c]
        + SumTo(|indices|, Landing(indices, rows, width, t, c))
  {
    if indices != [] {
      var n := |indices| - 1;
      IndexAddEntry(base, indices[..n], rows[..n], width, t, c);
      SumEqual(n, Landing(indices[..n], rows[..n], width, t, c), Landing(indices, rows, width, t, c));
    }
  }

  lemma {:induction false} SumOfOne(n: nat, k: nat, f: nat -> real)
    requires k < n && forall i: nat | i < n && i != k :: f(i) == 0.0
    ensures SumTo(n, f) == f(k)
  {
    if k == n - 1 { SumZero(n - 1, f); } else { SumOfOne(n - 1, k, f); }
  }

  /** Adding rows at distinct places of a zero tensor stores them there. */
  lemma IndexAddStores(base: seq<Vec>, indices: seq<nat>, rows: seq<Vec>, width: nat, k: nat)
    requires |indices| == |rows| && Indices(indices, |base|) && Widths(rows, width) && Distinct(indices)
    requires k < |indices|
    requires base == ZeroRows(|base|, width)
    ensures IndexAdd(base, indices, rows, width)[indices[k]] == rows[k]
  {
    var r := IndexAdd(base, indices, rows, width);
    forall c: nat | c < width ensures r[indices[k]][c] == rows[k][c] {
      IndexAddEntry(base, indices, rows, width, indices[k], c);
      SumOfOne(|indices|, k, Landing(indices, rows, width, indices[k], c));
    }
    assert |r[indices[k]]| == |rows[k]|;
  }

  // ----- nonzero

  /** The positions where the mask is set, ascending. */
  function NonZero(mask: seq<bool>): (r: seq<nat>)
    ensures Indices(r, |mask|)
  {
    if mask == [] then []
    else
      var n := |mask| - 1;
      NonZero(mask[..n]) + (if mask[n] then [n] else [])
  }

  lemma {:induction false} NonZeroCount(mask: seq<bool>, p: nat)
    ensures Count(NonZero(mask), p) == if p < |mask| && mask[p] then 1 else 0
  {
    if mask != [] {
      var n := |mask| - 1;
      NonZeroCount(mask[..n], p);
      CountAppend(NonZero(mask[..n]), n, p);
      assert NonZero(mask[..n]) + [] == NonZero(mask[..n]);
    }
  }

  function Masked(mask: seq<bool>, f: nat -> real): nat -> real {
    (p: nat) => if p < |mask| && mask[p] then f(p) else 0.0
  }

  lemma {:induction false} SumOverNonZero(mask: seq<bool>, f: nat -> real)
    ensures SumOver(NonZero(mask), f) == SumTo(|mask|, Masked(mask, f))
  {
    if mask != [] {
      var n := |mask| - 1;
      SumOverNonZero(mask[..n], f);
      SumEqual(n, Masked(mask[..n], f), Masked(mask, f));
      var rest := NonZero(mask[..n]);
      if mask[n] {
        assert (rest + [n])[..|rest|] == rest;
      } else {
        assert rest + [] == rest;
      }
    }
  }

  lemma {:induction false} CountMember(ps: seq<nat>, i: nat)
    requires i < |ps|
    ensures Count(ps, ps[i]) >= 1
  {
    if i < |ps| - 1 { CountMember(ps[..|ps| - 1], i); }
  }

  lemma {:induction false} CountTwice(ps: seq<nat>, i: nat, j: nat)
    requires i < j < |ps| && ps[i] == ps[j]
    ensures Count(ps, ps[i]) >= 2
  {
    if j < |ps| - 1 { CountTwice(ps[..|ps| - 1], i, j); } else { CountMember(ps[..|ps| - 1], i); }
  }

  lemma {:induction false} CountAbsent(ps: seq<nat>, p: nat)
    requires p !in ps
    ensures Count(ps, p) == 0
  {
    if ps != [] {
      assert p !in ps[..|ps| - 1];
      CountAbsent(ps[..|ps| - 1], p);
    }
  }

  lemma CountDistinct(ps: seq<nat>, p: nat)
    requires Distinct(ps)
    ensures Count(ps, p) == if p in ps then 1 else 0
  {
    if p in ps {
      var k :| 0 <= k < |ps| && ps[k] == p;
      CountMember(ps, k);
      CountOnce(ps, k);
    } else {
      CountAbsent(ps, p);
    }
  }

  lemma {:induction false} CountOnce(ps: seq<nat>, k: nat)
    requires Distinct(ps) && k < |ps|
    ensures Count(ps, ps[k]) == 1
  {
    var n := |ps| - 1;
    if k < n {
      CountOnce(ps[..n], k);
    } else {
      CountAbsent(ps[..n], ps[n]);
    }
  }

  lemma NonZeroDistinct(mask: seq<bool>)
    ensures Distinct(NonZero(mask))
    ensures forall p: nat :: p in NonZero(mask) <==> p < |mask| && mask[p]
  {
    var r := NonZero(mask);
    forall i, j | 0 <= i < j < |r| ensures r[i] != r[j] {
      NonZeroCount(mask, r[i]);
      if r[i] == r[j] { CountTwice(r, i, j); }
    }
    forall p: nat ensures p in r <==> p < |mask| && mask[p] {
      NonZeroCount(mask, p);
      CountDistinct(r, p);
    }
  }

  /** Two duplicate-free lists of the same members sum alike. */
  lemma SumOverSameMembers(a: seq<nat>, b: seq<nat>, f: nat -> real)
    requires Distinct(a) && Distinct(b) && forall p: nat :: p in a <==> p in b
    ensures SumOver(a, f) == SumOver(b, f)
  {
    forall p: nat ensures multiset(a)[p] == multiset(b)[p] {
      CountInMultiset(a, p);
      CountInMultiset(b, p);
      CountDistinct(a, p);
      CountDistinct(b, p);
    }
    assert multiset(a) == multiset(b);
    SumOverPermutation(a, b, f);
  }

  lemma {:induction false} SumOverIsSum(ps: seq<nat>, f: nat -> real, g: nat -> real)
    requires forall i: nat | i < |ps| :: g(i) == f(ps[i])
    ensures SumOver(ps, f) == SumTo(|ps|, g)
  {
    if ps != [] { SumOverIsSum(ps[..|ps| - 1], f, g); }
  }

  // ----- sort and bincount

  /** `order` lists all positions of `keys` by ascending key; equal keys may stand in any order. */
  ghost predicate Sorts(order: seq<nat>, keys: seq<nat>) {
    && |order| == |keys| && Indices(order, |keys|) && EachOnce(order, |keys|)
    && Ascending(Select(keys, order))
  }

  predicate Ascending(s: seq<nat>) {
    forall i, j | 0 <= i < j < |s| :: s[i] <= s[j]
  }

  lemma SortsDistinct(order: seq<nat>, keys: seq<nat>)
    requires Sorts(order, keys)
    ensures Distinct(order)
  {
    forall i, j | 0 <= i < j < |order| ensures order[i] != order[j] {
      assert Count(order, order[i]) == 1;
      if order[i] == order[j] { CountTwice(order, i, j); }
    }
  }

  /** How many keys are below `d`: the exclusive running total of the bin counts. */
  function Below(keys: seq<nat>, d: nat): nat {
    if d == 0 then 0 else Below(keys, d - 1) + Count(keys, d - 1)
  }

  lemma {:induction false} BelowAppend(s: seq<nat>, x: nat, d: nat)
    ensures Below(s + [x], d) == Below(s, d) + if x < d then 1 else 0
  {
    if d > 0 {
      BelowAppend(s, x, d - 1);
      CountAppend(s, x, d - 1);
    }
  }

  lemma {:induction false} BelowEmpty(d: nat)
    ensures Below([], d) == 0
  {
    if d > 0 { BelowEmpty(d - 1); }
  }

  lemma {:induction false} BelowMonotone(keys: seq<nat>, d: nat, e: nat)
    requires d <= e
    ensures Below(keys, d) <= Below(keys, e)
  {
    if d < e { BelowMonotone(keys, d, e - 1); }
  }

  lemma {:induction false} BelowAll(s: seq<nat>, d: nat)
    requires forall i | 0 <= i < |s| :: s[i] < d
    ensures Below(s, d) == |s|
  {
    if s == [] {
      BelowEmpty(d);
    } else {
      var n := |s| - 1;
      BelowAll(s[..n], d);
      BelowAppend(s[..n], s[n], d);
      assert s == s[..n] + [s[n]];
    }
  }

  /** In an ascending list the keys below `d` are the first Below(s, d). */
  lemma {:induction false} AscendingPrefix(s: seq<nat>, d: nat, i: nat)
    requires Ascending(s) && i < |s|
    ensures s[i] < d <==> i < Below(s, d)
  {
    var n := |s| - 1;
    assert s == s[..n] + [s[n]];
    BelowAppend(s[..n], s[n], d);
    if s[n] < d {
      BelowAll(s[..n], d);
    } else if i < n {
      AscendingPrefix(s[..n], d, i);
    } else {
      BelowAtMost(s[..n], d);
    }
  }

  lemma {:induction false} BelowAtMost(s: seq<nat>, d: nat)
    ensures Below(s, d) <= |s|
  {
    if s == [] {
      BelowEmpty(d);
    } else {
      var n := |s| - 1;
      BelowAtMost(s[..n], d);
      BelowAppend(s[..n], s[n], d);
      assert s == s[..n] + [s[n]];
    }
  }

  function Indicator(keys: seq<nat>, d: nat): nat -> real {
    (i: nat) => if i < |keys| && keys[i] == d then 1.0 else 0.0
  }

  lemma {:induction false} CountIsSum(keys: seq<nat>, d: nat)
    ensures Count(keys, d) as real == SumTo(|keys|, Indicator(keys, d))
  {
    if keys != [] {
      var n := |keys| - 1;
      CountIsSum(keys[..n], d);
      SumEqual(n, Indicator(keys[..n], d), Indicator(keys, d));
    }
  }

  lemma CountPermuted(keys: seq<nat>, order: seq<nat>, d: nat)
    requires |order| == |keys| && Indices(order, |keys|) && EachOnce(order, |keys|)
    ensures Count(Select(keys, order), d) == Count(keys, d)
  {
    CountIsSum(keys, d);
    CountIsSum(Select(keys, order), d);
    SumOverEachOnce(order, |keys|, Indicator(keys, d));
    SumOverIsSum(order, Indicator(keys, d), Indicator(Select(keys, order), d));
  }

  lemma {:induction false} BelowPermuted(keys: seq<nat>, order: seq<nat>, d: nat)
    requires |order| == |keys| && Indices(order, |keys|) && EachOnce(order, |keys|)
    ensures Below(Select(keys, order), d) == Below(keys, d)
  {
    if d > 0 {
      BelowPermuted(keys, order, d - 1);
      CountPermuted(keys, order, d - 1);
    }
  }

  lemma AscendingPlace(s: seq<nat>, i: nat, d: nat)
    requires Ascending(s) && i < |s| && s[i] == d
    ensures Below(s, d) <= i < Below(s, d + 1)
  {
    AscendingPrefix(s, d, i);
    AscendingPrefix(s, d + 1, i);
  }

  /** After sorting, the entries with key `d` stand at Below(keys, d) and the next Count(keys, d) - 1 places. */
  lemma SortedPlace(keys: seq<nat>, order: seq<nat>, i: nat, d: nat)
    requires Sorts(order, keys) && i < |keys| && d == keys[order[i]]
    ensures Below(keys, d) <= i < Below(keys, d + 1) == Below(keys, d) + Count(keys, d)
  {
    BelowPermuted(keys, order, d);
    BelowPermuted(keys, order, d + 1);
    AscendingPlace(Select(keys, order), i, d);
  }

  lemma SortsPlaces(order: seq<nat>, keys: seq<nat>)
    requires Sorts(order, keys)
    ensures |order| == |keys| && Indices(order, |keys|)
  {
  }

  lemma SortsNothing()
    ensures Sorts([], [])
  {
  }

  /** An ascending sort of the keys, by insertion. Callers know nothing of it but `Sorts`. */
  method Sort(keys: seq<nat>) returns (order: seq<nat>)
    ensures Sorts(order, keys)
  {
    hide Sorts;
    order := [];
    SortsNothing();
    while |order| < |keys|
      invariant |order| <= |keys| && Sorts(order, keys[..|order|])
    {
      var n := |order|;
      SortsPlaces(order, keys[..n]);
      var k := n;
      while k > 0 && keys[order[k - 1]] > keys[n]
        invariant 0 <= k <= n && forall i | k <= i < n :: keys[order[i]] > keys[n]
      {
        k := k - 1;
      }
      assert keys[..n + 1][..n] == keys[..n];
      InsertSorts(order, keys[..n + 1], k);
      order := order[..k] + [n] + order[k..];
    }
    assert keys[..|order|] == keys;
  }

  lemma InsertSorts(order: seq<nat>, keys: seq<nat>, k: nat)
    requires keys != [] && Sorts(order, keys[..|keys| - 1]) && k <= |order|
    requires forall i | k <= i < |order| :: keys[order[i]] > keys[|keys| - 1]
    requires k > 0 ==> keys[order[k - 1]] <= keys[|keys| - 1]
    ensures Sorts(order[..k] + [|keys| - 1] + order[k..], keys)
  {
    hide Count;
    var n := |keys| - 1;
    var next := order[..k] + [n] + order[k..];
    forall p: nat ensures Count(next, p) == if p < |keys| then 1 else 0 {
      InsertCount(order, k, n, p);
      assert Count(order, p) == if p < n then 1 else 0;
    }
    var s := Select(keys[..n], order);
    forall i, j | 0 <= i < j < |next| ensures Select(keys, next)[i] <= Select(keys, next)[j] {
      if j < k {
        assert s[i] <= s[j];
      } else if i > k {
        assert s[i - 1] <= s[j - 1];
      } else if i < k {
        assert s[i] <= s[k - 1];
        if j > k { assert s[i] <= s[j - 1]; }
      }
    }
  }

  lemma InsertCount(order: seq<nat>, k: nat, n: nat, p: nat)
    requires k <= |order|
    ensures Count(order[..k] + [n] + order[k..], p) == Count(order, p) + if p == n then 1 else 0
  {
    CountConcat(order[..k] + [n], order[k..], p);
    CountAppend(order[..k], n, p);
    CountConcat(order[..k], order[k..], p);
    assert order[..k] + order[k..] == order;
  }
}

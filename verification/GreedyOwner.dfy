/** Owners of parameters, chosen greedily. */
module GreedyOwner {
  import opened Results
  import Sums
  import opened Sequences

  // ----- loads

  /** Bytes that rank `r` holds of the listed parameters. */
  function Load(bytes: seq<int>, owner: seq<nat>, items: seq<nat>, r: nat): int
    requires |owner| == |bytes| && Indices(items, |bytes|)
  {
    if items == [] then 0
    else
      var i := items[|items| - 1];
      Load(bytes, owner, items[..|items| - 1], r) + (if owner[i] == r then bytes[i] else 0)
  }

  function Owned(owner: seq<nat>, items: seq<nat>, r: nat): nat
    requires Indices(items, |owner|)
  {
    if items == [] then 0
    else Owned(owner, items[..|items| - 1], r) + (if owner[items[|items| - 1]] == r then 1 else 0)
  }

  /** The parameters in their own order. */
  function AllItems(n: nat): (items: seq<nat>)
    ensures |items| == n && Indices(items, n)
    ensures forall i | 0 <= i < n :: items[i] == i
  {
    if n == 0 then [] else AllItems(n - 1) + [n - 1]
  }

  lemma {:induction false} LoadAppend(bytes: seq<int>, owner: seq<nat>, items: seq<nat>, i: nat, r: nat)
    requires |owner| == |bytes| && Indices(items, |bytes|) && i < |bytes|
    ensures Load(bytes, owner, items + [i], r) == Load(bytes, owner, items, r) + (if owner[i] == r then bytes[i] else 0)
    ensures Owned(owner, items + [i], r) == Owned(owner, items, r) + (if owner[i] == r then 1 else 0)
  {
    assert (items + [i])[..|items|] == items;
  }

  lemma {:induction false} LoadRemove(bytes: seq<int>, owner: seq<nat>, items: seq<nat>, k: nat, r: nat)
    requires |owner| == |bytes| && Indices(items, |bytes|) && k < |items|
    ensures Load(bytes, owner, items, r)
         == Load(bytes, owner, items[..k] + items[k + 1..], r) + (if owner[items[k]] == r then bytes[items[k]] else 0)
  {
    var n := |items| - 1;
    if k == n {
      assert items[..k] + items[k + 1..] == items[..n];
    } else {
      var rest := items[..n][..k] + items[..n][k + 1..];
      LoadRemove(bytes, owner, items[..n], k, r);
      assert items[..k] + items[k + 1..] == rest + [items[n]];
      LoadAppend(bytes, owner, rest, items[n], r);
    }
  }

  /** Loads do not depend on the order in which parameters are listed. */
  lemma {:induction false} LoadOrderFree(bytes: seq<int>, owner: seq<nat>, a: seq<nat>, b: seq<nat>, r: nat)
    requires |owner| == |bytes| && Indices(a, |bytes|) && Indices(b, |bytes|) && multiset(a) == multiset(b)
    ensures Load(bytes, owner, a, r) == Load(bytes, owner, b, r)
    decreases |a|
  {
    if a == [] {
      assert b == [] by { assert |multiset(b)| == 0; }
    } else {
      var k := Sums.FindLast(a, b);
      LoadRemove(bytes, owner, b, k, r);
      LoadOrderFree(bytes, owner, a[..|a| - 1], b[..k] + b[k + 1..], r);
    }
  }

  // ----- sums over ranks

  function LoadSum(n: nat, g: nat -> int): int {
    if n == 0 then 0 else LoadSum(n - 1, g) + g(n - 1)
  }

  lemma {:induction false} SumMonotone(n: nat, g: nat -> int, h: nat -> int)
    requires forall r: nat | r < n :: g(r) <= h(r)
    ensures LoadSum(n, g) <= LoadSum(n, h)
  {
    if n > 0 { SumMonotone(n - 1, g, h); }
  }

  lemma LoadSumEqual(n: nat, g: nat -> int, h: nat -> int)
    requires forall r: nat | r < n :: g(r) == h(r)
    ensures LoadSum(n, g) == LoadSum(n, h)
  {
    SumMonotone(n, g, h);
    SumMonotone(n, h, g);
  }

  lemma {:induction false} LoadSumZero(n: nat, g: nat -> int)
    requires forall r: nat | r < n :: g(r) == 0
    ensures LoadSum(n, g) == 0
  {
    if n > 0 { LoadSumZero(n - 1, g); }
  }

  lemma {:induction false} SumConstantMinus(n: nat, c: int, g: nat -> int)
    ensures LoadSum(n, (r: nat) => c - g(r)) == n * c - LoadSum(n, g)
  {
    if n > 0 {
      SumConstantMinus(n - 1, c, g);
      assert n * c == (n - 1) * c + c;
    }
  }

  lemma {:induction false} SumPoint(n: nat, g: nat -> int, h: nat -> int, p: nat)
    requires forall r: nat | r < n && r != p :: g(r) == h(r)
    ensures LoadSum(n, g) == LoadSum(n, h) + (if p < n then g(p) - h(p) else 0)
  {
    if n > 0 { SumPoint(n - 1, g, h, p); }
  }

  /** Total weight of the items, where an item weighs what its rank weighs. */
  function ItemWeight(owner: seq<nat>, items: seq<nat>, w: nat -> int): int
    requires Indices(items, |owner|)
  {
    if items == [] then 0
    else ItemWeight(owner, items[..|items| - 1], w) + w(owner[items[|items| - 1]])
  }

  predicate Assignment(owner: seq<nat>, ranks: nat) {
    forall i | 0 <= i < |owner| :: owner[i] < ranks
  }

  /** Counting the weight item by item or rank by rank is the same. */
  lemma {:induction false} DoubleCount(owner: seq<nat>, items: seq<nat>, ranks: nat, w: nat -> int)
    requires Indices(items, |owner|) && Assignment(owner, ranks)
    ensures ItemWeight(owner, items, w) == LoadSum(ranks, (r: nat) => Owned(owner, items, r) * w(r))
  {
    if items == [] {
      var g := (r: nat) => Owned(owner, items, r) * w(r);
      forall r: nat ensures g(r) == 0 { assert Owned(owner, items, r) == 0; }
      LoadSumZero(ranks, g);
    } else {
      var n := |items| - 1;
      var p := owner[items[n]];
      var g, h := (r: nat) => Owned(owner, items, r) * w(r), (r: nat) => Owned(owner, items[..n], r) * w(r);
      DoubleCount(owner, items[..n], ranks, w);
      assert forall r: nat | r != p :: Owned(owner, items, r) == Owned(owner, items[..n], r);
      assert forall r: nat | r != p :: g(r) == h(r);
      SumPoint(ranks, g, h, p);
      Distribute(Owned(owner, items[..n], p), w(p));
    }
  }

  lemma Distribute(c: int, v: int)
    ensures (c + 1) * v == c * v + v
  {
  }

  lemma {:induction false} TotalLoad(bytes: seq<int>, owner: seq<nat>, items: seq<nat>, ranks: nat)
    requires |owner| == |bytes| && Indices(items, |bytes|) && Assignment(owner, ranks)
    ensures LoadSum(ranks, (r: nat) => Load(bytes, owner, items, r)) == Total(bytes, items)
  {
    if items == [] {
      LoadSumZero(ranks, (r: nat) => Load(bytes, owner, items, r));
    } else {
      var n := |items| - 1;
      TotalLoad(bytes, owner, items[..n], ranks);
      SumPoint(ranks, (r: nat) => Load(bytes, owner, items, r), (r: nat) => Load(bytes, owner, items[..n], r),
        owner[items[n]]);
    }
  }

  function Total(bytes: seq<int>, items: seq<nat>): int
    requires Indices(items, |bytes|)
  {
    if items == [] then 0 else Total(bytes, items[..|items| - 1]) + bytes[items[|items| - 1]]
  }

  // ----- the bound

  /** No rank holds more than `bound` of the listed parameters. */
  ghost predicate LoadsAtMost(bytes: seq<int>, owner: seq<nat>, items: seq<nat>, ranks: nat, bound: int)
    requires |owner| == |bytes| && Indices(items, |bytes|)
  {
    forall r: nat | r < ranks :: Load(bytes, owner, items, r) <= bound
  }

  predicate SizesAtLeast(bytes: seq<int>, items: seq<nat>, p: int)
    requires Indices(items, |bytes|)
  {
    forall k | 0 <= k < |items| :: bytes[items[k]] >= p
  }

  /** Few items already weigh much when all are at least `p`. */
  lemma {:induction false} LoadBelow(bytes: seq<int>, owner: seq<nat>, items: seq<nat>, p: nat, r: nat)
    requires |owner| == |bytes| && Indices(items, |bytes|) && SizesAtLeast(bytes, items, p)
    ensures Load(bytes, owner, items, r) >= 0
    ensures Owned(owner, items, r) == 0 ==> Load(bytes, owner, items, r) == 0
    ensures Owned(owner, items, r) >= 1 ==> Load(bytes, owner, items, r) >= p
    ensures Owned(owner, items, r) >= 3 ==> Load(bytes, owner, items, r) >= 3 * p
    ensures Owned(owner, items, r) >= 2 ==> Load(bytes, owner, items, r) >= 2 * p
  {
    if items != [] {
      LoadBelow(bytes, owner, items[..|items| - 1], p, r);
    }
  }

  lemma {:induction false} LoadOfItem(bytes: seq<int>, owner: seq<nat>, items: seq<nat>, p: nat, k: nat)
    requires |owner| == |bytes| && Indices(items, |bytes|) && SizesAtLeast(bytes, items, p) && k < |items|
    ensures var r, b := owner[items[k]], bytes[items[k]];
            && Owned(owner, items, r) >= 1
            && Load(bytes, owner, items, r) >= b
            && (Owned(owner, items, r) == 1 ==> Load(bytes, owner, items, r) == b)
            && (Owned(owner, items, r) >= 2 ==> Load(bytes, owner, items, r) >= b + p)
  {
    var n := |items| - 1;
    LoadBelow(bytes, owner, items[..n], p, owner[items[k]]);
    if k < n { LoadOfItem(bytes, owner, items[..n], p, k); }
  }

  function Single(owner: seq<nat>, items: seq<nat>): nat -> int
    requires Indices(items, |owner|)
  {
    (r: nat) => if Owned(owner, items, r) == 1 then 1 else 0
  }

  /** A parameter too big to share its rank under the greedy owner is alone in every good assignment. */
  lemma LonelyItem(bytes: seq<int>, owner: seq<nat>, items: seq<nat>, x: nat, other: seq<nat>, k: nat, ranks: nat,
                   bound: int)
    requires |owner| == |bytes| == |other| && x < |bytes| && Indices(items, |bytes|) && k < |items|
    requires Assignment(other, ranks) && bytes[x] >= 0 && SizesAtLeast(bytes, items, bytes[x])
    requires LoadsAtMost(bytes, other, items + [x], ranks, bound)
    requires Load(bytes, owner, items, owner[items[k]]) + bytes[x] > bound
    requires Owned(owner, items, owner[items[k]]) == 1
    ensures Owned(other, items + [x], other[items[k]]) == 1
  {
    LoadOfItem(bytes, owner, items, bytes[x], k);
    LoadOfItem(bytes, other, items + [x], bytes[x], k);
  }

  /** When no rank has room for `x` under the greedy owner, every rank is taken; when three
      parameters are too many for any rank, none of them holds more than two. */
  lemma CrowdedRanks(bytes: seq<int>, owner: seq<nat>, items: seq<nat>, x: nat, other: seq<nat>, r: nat, bound: int)
    requires |owner| == |bytes| == |other| && x < |bytes| && Indices(items, |bytes|)
    requires bytes[x] >= 0 && SizesAtLeast(bytes, items, bytes[x]) && 3 * bytes[x] > bound >= bytes[x]
    requires Load(bytes, other, items + [x], r) <= bound && Load(bytes, owner, items, r) + bytes[x] > bound
    ensures 2 - Single(owner, items)(r) <= Owned(owner, items, r)
    ensures Owned(other, items + [x], r) <= 2 - Single(other, items + [x])(r)
  {
    LoadBelow(bytes, owner, items, bytes[x], r);
    LoadBelow(bytes, other, items + [x], bytes[x], r);
  }

  /** With at most two parameters per rank possible, the least loaded rank has room for one more. */
  lemma FewItemsFit(bytes: seq<int>, owner: seq<nat>, items: seq<nat>, x: nat, best: nat, other: seq<nat>, ranks: nat,
                    bound: int)
    requires |owner| == |bytes| == |other| && x < |bytes| && Indices(items, |bytes|)
    requires Assignment(owner, ranks) && Assignment(other, ranks) && best < ranks
    requires bytes[x] >= 0 && SizesAtLeast(bytes, items, bytes[x]) && 3 * bytes[x] > bound
    requires LoadsAtMost(bytes, other, items + [x], ranks, bound)
    requires forall r: nat | r < ranks :: Load(bytes, owner, items, best) <= Load(bytes, owner, items, r)
    ensures Load(bytes, owner, items, best) + bytes[x] <= bound
  {
    if Load(bytes, owner, items, best) + bytes[x] > bound {
      var single, single' := Single(owner, items), Single(other, items + [x]);
      LoadOfItem(bytes, other, items + [x], bytes[x], |items|);
      assert Load(bytes, other, items + [x], other[x]) <= bound;
      forall r: nat | r < ranks
        ensures 2 - single(r) <= Owned(owner, items, r) && Owned(other, items + [x], r) <= 2 - single'(r)
      {
        CrowdedRanks(bytes, owner, items, x, other, r, bound);
      }
      forall k | 0 <= k < |items| ensures single(owner[items[k]]) <= single'(other[items[k]]) {
        if single(owner[items[k]]) == 1 { LonelyItem(bytes, owner, items, x, other, k, ranks, bound); }
      }
      WeightMonotone(owner, other, items, single, single');
      Pigeonhole(owner, items, other, x, ranks);
    }
  }

  /** The pigeonhole: the greedy owner's singles leave no place for the items of the other assignment. */
  lemma Pigeonhole(owner: seq<nat>, items: seq<nat>, other: seq<nat>, x: nat, ranks: nat)
    requires |owner| == |other| && x < |owner| && Indices(items, |owner|) && Assignment(owner, ranks)
    requires Assignment(other, ranks)
    requires forall r: nat | r < ranks :: 2 - Single(owner, items)(r) <= Owned(owner, items, r)
    requires forall r: nat | r < ranks :: Owned(other, items + [x], r) <= 2 - Single(other, items + [x])(r)
    ensures ItemWeight(owner, items, Single(owner, items)) > ItemWeight(other, items, Single(other, items + [x]))
  {
    var more := items + [x];
    var single, single' := Single(owner, items), Single(other, more);
    RankCounts(owner, items, ranks);
    RankCounts(other, more, ranks);
    assert more[..|items|] == items;
    assert ItemWeight(other, more, single') == ItemWeight(other, items, single') + single'(other[x]);
    SumMonotone(ranks, (r: nat) => 2 - single(r), (r: nat) => Owned(owner, items, r));
    SumMonotone(ranks, (r: nat) => Owned(other, more, r), (r: nat) => 2 - single'(r));
    SumConstantMinus(ranks, 2, single);
    SumConstantMinus(ranks, 2, single');
  }

  /** Ranks with a single item are as many as items alone on their rank. */
  lemma RankCounts(owner: seq<nat>, items: seq<nat>, ranks: nat)
    requires Indices(items, |owner|) && Assignment(owner, ranks)
    ensures LoadSum(ranks, (r: nat) => Owned(owner, items, r)) == |items|
    ensures LoadSum(ranks, Single(owner, items)) == ItemWeight(owner, items, Single(owner, items))
  {
    var one := (r: nat) => 1;
    DoubleCount(owner, items, ranks, one);
    UnitWeight(owner, items, one);
    LoadSumEqual(ranks, (r: nat) => Owned(owner, items, r), (r: nat) => Owned(owner, items, r) * one(r));
    var single := Single(owner, items);
    DoubleCount(owner, items, ranks, single);
    LoadSumEqual(ranks, single, (r: nat) => Owned(owner, items, r) * single(r));
  }

  lemma {:induction false} UnitWeight(owner: seq<nat>, items: seq<nat>, one: nat -> int)
    requires Indices(items, |owner|) && forall r: nat :: one(r) == 1
    ensures ItemWeight(owner, items, one) == |items|
  {
    if items != [] { UnitWeight(owner, items[..|items| - 1], one); }
  }

  lemma {:induction false} WeightMonotone(f: seq<nat>, g: seq<nat>, items: seq<nat>, v: nat -> int, w: nat -> int)
    requires Indices(items, |f|) && |f| == |g|
    requires forall k | 0 <= k < |items| :: v(f[items[k]]) <= w(g[items[k]])
    ensures ItemWeight(f, items, v) <= ItemWeight(g, items, w)
  {
    if items != [] { WeightMonotone(f, g, items[..|items| - 1], v, w); }
  }

  /** One greedy placement keeps Graham's bound: the next parameter is no larger than any before it
      and goes to a least loaded rank. `other` is any assignment whatever. */
  lemma GreedyPlacement(bytes: seq<int>, owner: seq<nat>, items: seq<nat>, x: nat, best: nat, other: seq<nat>,
                        ranks: nat, bound: int)
    requires |owner| == |bytes| == |other| && x < |bytes| && Indices(items, |bytes|)
    requires Assignment(owner, ranks) && Assignment(other, ranks) && best < ranks
    requires bytes[x] >= 0 && SizesAtLeast(bytes, items, bytes[x])
    requires LoadsAtMost(bytes, other, items + [x], ranks, bound)
    requires forall r: nat | r < ranks :: Load(bytes, owner, items, best) <= Load(bytes, owner, items, r)
    ensures 3 * ranks * (Load(bytes, owner, items, best) + bytes[x]) <= (4 * ranks - 1) * bound
  {
    var p, m := bytes[x], Load(bytes, owner, items, best);
    if 3 * p > bound {
      FewItemsFit(bytes, owner, items, x, best, other, ranks, bound);
      assert 0 <= p <= m + p by { LoadBelow(bytes, owner, items, p, best); }
      MultiplyOut(ranks, m + p, bound);
    } else {
      AverageFits(bytes, owner, items, x, best, other, ranks, bound);
      GrahamArithmetic(ranks, m, p, bound);
    }
  }

  lemma MultiplyOut(ranks: nat, load: int, bound: int)
    requires ranks >= 1 && 0 <= load <= bound
    ensures 3 * ranks * load <= (4 * ranks - 1) * bound
  {
    assert 3 * ranks * load <= 3 * ranks * bound;
    assert (4 * ranks - 1) * bound == 3 * ranks * bound + (ranks - 1) * bound;
  }

  lemma GrahamArithmetic(ranks: nat, m: int, p: int, bound: int)
    requires ranks >= 1 && ranks * m + p <= ranks * bound && 3 * p <= bound
    ensures 3 * ranks * (m + p) <= (4 * ranks - 1) * bound
  {
    MulMonotone(ranks - 1, 3 * p, bound);
    Expand(ranks, m, p, bound);
  }

  lemma MulMonotone(c: nat, x: int, y: int)
    requires x <= y
    ensures c * x <= c * y
  {
  }

  lemma Expand(ranks: nat, m: int, p: int, bound: int)
    ensures 3 * ranks * (m + p) == 3 * (ranks * m) + 3 * (ranks * p)
    ensures (4 * ranks - 1) * bound == 4 * (ranks * bound) - bound
    ensures (ranks - 1) * (3 * p) == 3 * (ranks * p) - 3 * p
    ensures (ranks - 1) * bound == ranks * bound - bound
  {
  }

  /** The least loaded rank holds at most the average, and the average fits under `bound`. */
  lemma AverageFits(bytes: seq<int>, owner: seq<nat>, items: seq<nat>, x: nat, best: nat, other: seq<nat>, ranks: nat,
                    bound: int)
    requires |owner| == |bytes| == |other| && x < |bytes| && Indices(items, |bytes|)
    requires Assignment(owner, ranks) && Assignment(other, ranks) && best < ranks
    requires LoadsAtMost(bytes, other, items + [x], ranks, bound)
    requires forall r: nat | r < ranks :: Load(bytes, owner, items, best) <= Load(bytes, owner, items, r)
    ensures ranks * Load(bytes, owner, items, best) + bytes[x] <= ranks * bound
  {
    var m, zero := Load(bytes, owner, items, best), (r: nat) => 0;
    TotalLoad(bytes, owner, items, ranks);
    TotalLoad(bytes, other, items + [x], ranks);
    assert (items + [x])[..|items|] == items;
    SumMonotone(ranks, (r: nat) => m - zero(r), (r: nat) => Load(bytes, owner, items, r));
    SumMonotone(ranks, (r: nat) => Load(bytes, other, items + [x], r), (r: nat) => bound - zero(r));
    SumConstantMinus(ranks, m, zero);
    SumConstantMinus(ranks, bound, zero);
    LoadSumZero(ranks, zero);
  }

  // ----- the greedy loop

  /** Larger sizes first; equal sizes in their original order (std::stable_sort). */
  ghost predicate StableDescending(bytes: seq<int>, order: seq<nat>)
    requires Indices(order, |bytes|)
  {
    forall j, k | 0 <= j < k < |order| :: Precedes(bytes, order[j], order[k])
  }

  predicate Precedes(bytes: seq<int>, i: nat, j: nat)
    requires i < |bytes| && j < |bytes|
  {
    bytes[i] > bytes[j] || (bytes[i] == bytes[j] && i < j)
  }

  function Insert(order: seq<nat>, k: nat, i: nat): seq<nat>
    requires k <= |order|
  {
    order[..k] + [i] + order[k..]
  }

  lemma InsertKeepsItems(order: seq<nat>, k: nat, n: nat)
    requires |order| == n && Indices(order, n) && k <= |order| && multiset(order) == multiset(AllItems(n))
    ensures var o := Insert(order, k, n); Indices(o, n + 1) && multiset(o) == multiset(AllItems(n + 1))
  {
    assert order == order[..k] + order[k..];
  }

  lemma InsertIsStable(bytes: seq<int>, order: seq<nat>, k: nat)
    requires bytes != [] && k <= |order| && Indices(order, |bytes| - 1)
    requires Indices(Insert(order, k, |bytes| - 1), |bytes|)
    requires StableDescending(bytes, order)
    requires forall j | 0 <= j < k :: bytes[order[j]] >= bytes[|bytes| - 1]
    requires k < |order| ==> bytes[order[k]] < bytes[|bytes| - 1]
    ensures StableDescending(bytes, Insert(order, k, |bytes| - 1))
  {
    var n := |bytes| - 1;
    var o := Insert(order, k, n);
    forall i, j | 0 <= i < j < |o| ensures Precedes(bytes, o[i], o[j]) {
      if i == k {
        assert j - 1 == k || Precedes(bytes, order[k], order[j - 1]);
      } else if j != k {
        assert Precedes(bytes, order[if i < k then i else i - 1], order[if j < k then j else j - 1]);
      }
    }
  }

  function StableOrder(bytes: seq<int>): (order: seq<nat>)
    ensures |order| == |bytes| && Indices(order, |bytes|)
  {
    if bytes == [] then []
    else
      var rest := StableOrder(bytes[..|bytes| - 1]);
      Insert(rest, FirstSmaller(bytes, rest, 0), |bytes| - 1)
  }

  /** The order is a permutation of the parameters and stably descending. */
  lemma {:induction false} StableOrderSorts(bytes: seq<int>)
    ensures multiset(StableOrder(bytes)) == multiset(AllItems(|bytes|))
    ensures StableDescending(bytes, StableOrder(bytes))
  {
    if bytes != [] {
      var rest := StableOrder(bytes[..|bytes| - 1]);
      StableOrderSorts(bytes[..|bytes| - 1]);
      forall j, k | 0 <= j < k < |rest| ensures Precedes(bytes, rest[j], rest[k]) {
        assert Precedes(bytes[..|bytes| - 1], rest[j], rest[k]);
      }
      var k := FirstSmaller(bytes, rest, 0);
      InsertKeepsItems(rest, k, |bytes| - 1);
      InsertIsStable(bytes, rest, k);
    }
  }

  /** Where the last parameter belongs among the sorted others. */
  function FirstSmaller(bytes: seq<int>, order: seq<nat>, k: nat): (p: nat)
    requires bytes != [] && Indices(order, |bytes| - 1) && k <= |order|
    ensures k <= p <= |order|
    ensures forall j | k <= j < p :: bytes[order[j]] >= bytes[|bytes| - 1]
    ensures p < |order| ==> bytes[order[p]] < bytes[|bytes| - 1]
    decreases |order| - k
  {
    if k == |order| || bytes[order[k]] < bytes[|bytes| - 1] then k else FirstSmaller(bytes, order, k + 1)
  }

  /** The k-th parameter in order went to the first of the ranks least loaded by the ones before it. */
  ghost predicate GreedyAt(bytes: seq<int>, owner: seq<nat>, order: seq<nat>, ranks: nat, k: nat)
    requires |owner| == |bytes| && Indices(order, |bytes|) && k < |order|
  {
    var best := owner[order[k]];
    && best < ranks
    && forall r: nat | r < ranks ::
         if r < best then Load(bytes, owner, order[..k], best) < Load(bytes, owner, order[..k], r)
         else Load(bytes, owner, order[..k], best) <= Load(bytes, owner, order[..k], r)
  }

  predicate NonNegative(bytes: seq<int>) {
    forall i | 0 <= i < |bytes| :: bytes[i] >= 0
  }

  ghost predicate GreedyUpTo(bytes: seq<int>, owner: seq<nat>, order: seq<nat>, ranks: nat, n: nat)
    requires |owner| == |bytes| && Indices(order, |bytes|) && n <= |order|
  {
    forall k: nat | k < n :: GreedyAt(bytes, owner, order, ranks, k)
  }

  ghost predicate Tracks(bytesByRank: seq<int>, bytes: seq<int>, owner: seq<nat>, items: seq<nat>)
    requires |owner| == |bytes| && Indices(items, |bytes|)
  {
    forall r: nat | r < |bytesByRank| :: bytesByRank[r] == Load(bytes, owner, items, r)
  }

  /** The first index holding the minimum. */
  predicate IsArgMin(s: seq<int>, best: nat) {
    best < |s| && forall r: nat | r < |s| :: if r < best then s[best] < s[r] else s[best] <= s[r]
  }

  /** The inner loop over ranks. */
  method LeastLoaded(bytesByRank: seq<int>) returns (owner: nat)
    requires bytesByRank != []
    ensures IsArgMin(bytesByRank, owner)
  {
    owner := 0;
    var rank := 1;
    while rank < |bytesByRank|
      invariant 1 <= rank <= |bytesByRank|
      invariant IsArgMin(bytesByRank[..rank], owner)
    {
      if bytesByRank[rank] < bytesByRank[owner] { owner := rank; }
      rank := rank + 1;
    }
    assert bytesByRank[..rank] == bytesByRank;
  }

  method GreedyOwnerBySize(bytes: seq<int>, dataParallel: int) returns (r: Result<seq<nat>>)
    ensures r.Ok? <==> dataParallel > 0 && NonNegative(bytes)
    ensures r.Ok? ==> |r.value| == |bytes| && Assignment(r.value, dataParallel)
    ensures r.Ok? ==> GreedyUpTo(bytes, r.value, StableOrder(bytes), dataParallel, |bytes|)
  {
    if dataParallel <= 0 { return Err("data_parallel must be positive"); }
    if i :| 0 <= i < |bytes| && bytes[i] < 0 { return Err("parameter byte size must be non-negative"); }
    var bytesByRank: seq<int> := seq(dataParallel, _ => 0);
    var ownerByParameter: seq<nat> := seq(|bytes|, _ => 0);
    var order := StableOrder(bytes);
    OrderIsDistinct(bytes);
    var k := 0;
    while k < |order|
      invariant k <= |order| && |ownerByParameter| == |bytes| && |bytesByRank| == dataParallel
      invariant Assignment(ownerByParameter, dataParallel)
      invariant Tracks(bytesByRank, bytes, ownerByParameter, order[..k])
      invariant GreedyUpTo(bytes, ownerByParameter, order, dataParallel, k)
    {
      var owner := LeastLoaded(bytesByRank);
      OneMoreOwner(bytes, ownerByParameter, order, bytesByRank, k, owner);
      ownerByParameter := ownerByParameter[order[k] := owner];
      bytesByRank := bytesByRank[owner := bytesByRank[owner] + bytes[order[k]]];
      k := k + 1;
    }
    return Ok(ownerByParameter);
  }

  lemma OrderIsDistinct(bytes: seq<int>)
    ensures Distinct(StableOrder(bytes))
  {
    StableOrderSorts(bytes);
    var order := StableOrder(bytes);
    forall j, k | 0 <= j < k < |order| ensures order[j] != order[k] {
      assert Precedes(bytes, order[j], order[k]);
    }
  }

  lemma OneMoreOwner(bytes: seq<int>, owner: seq<nat>, order: seq<nat>, bytesByRank: seq<int>, k: nat, best: nat)
    requires |owner| == |bytes| && Indices(order, |bytes|) && Distinct(order) && k < |order|
    requires Tracks(bytesByRank, bytes, owner, order[..k]) && GreedyUpTo(bytes, owner, order, |bytesByRank|, k)
    requires IsArgMin(bytesByRank, best)
    ensures var p := order[k]; var owner' := owner[p := best];
            && Tracks(bytesByRank[best := bytesByRank[best] + bytes[p]], bytes, owner', order[..k + 1])
            && GreedyUpTo(bytes, owner', order, |bytesByRank|, k + 1)
  {
    var p := order[k];
    var owner' := owner[p := best];
    assert order[..k + 1] == order[..k] + [p];
    forall r: nat | r < |bytesByRank|
      ensures Load(bytes, owner', order[..k + 1], r) == bytesByRank[r] + (if r == best then bytes[p] else 0)
    {
      LoadFrame(bytes, owner, owner', order[..k], p, r);
      LoadAppend(bytes, owner', order[..k], p, r);
    }
    forall j: nat | j <= k ensures GreedyAt(bytes, owner', order, |bytesByRank|, j) {
      forall r: nat ensures Load(bytes, owner', order[..j], r) == Load(bytes, owner, order[..j], r) {
        LoadFrame(bytes, owner, owner', order[..j], p, r);
      }
      assert j < k ==> GreedyAt(bytes, owner, order, |bytesByRank|, j);
    }
  }

  lemma {:induction false} LoadFrame(bytes: seq<int>, f: seq<nat>, g: seq<nat>, items: seq<nat>, p: nat, r: nat)
    requires |f| == |g| == |bytes| && Indices(items, |bytes|) && p !in items
    requires forall i | 0 <= i < |f| && i != p :: f[i] == g[i]
    ensures Load(bytes, f, items, r) == Load(bytes, g, items, r)
  {
    if items != [] { LoadFrame(bytes, f, g, items[..|items| - 1], p, r); }
  }

  // ----- the theorem

  lemma {:induction false} GreedyPrefix(bytes: seq<int>, owner: seq<nat>, order: seq<nat>, other: seq<nat>, ranks: nat,
                                        bound: int, n: nat, r: nat)
    requires |owner| == |bytes| == |other| && Indices(order, |bytes|) && n <= |order| && r < ranks && NonNegative(bytes)
    requires Assignment(owner, ranks) && Assignment(other, ranks)
    requires StableDescending(bytes, order) && GreedyUpTo(bytes, owner, order, ranks, n)
    requires LoadsAtMost(bytes, other, order[..n], ranks, bound)
    ensures 3 * ranks * Load(bytes, owner, order[..n], r) <= (4 * ranks - 1) * bound
    decreases n
  {
    if n == 0 {
      assert Load(bytes, other, order[..0], r) <= bound;
      MultiplyOut(ranks, 0, bound);
    } else {
      var items, x := order[..n - 1], order[n - 1];
      assert order[..n] == items + [x];
      LoadAppend(bytes, owner, items, x, r);
      if owner[x] == r {
        LastPlacement(bytes, owner, order, other, ranks, bound, n - 1);
      } else {
        FewerItemsWeighLess(bytes, other, items, x, ranks, bound);
        GreedyPrefix(bytes, owner, order, other, ranks, bound, n - 1, r);
      }
    }
  }

  lemma LastPlacement(bytes: seq<int>, owner: seq<nat>, order: seq<nat>, other: seq<nat>, ranks: nat, bound: int,
                      k: nat)
    requires |owner| == |bytes| == |other| && Indices(order, |bytes|) && k < |order| && NonNegative(bytes)
    requires Assignment(owner, ranks) && Assignment(other, ranks)
    requires StableDescending(bytes, order) && GreedyAt(bytes, owner, order, ranks, k)
    requires LoadsAtMost(bytes, other, order[..k] + [order[k]], ranks, bound)
    ensures 3 * ranks * (Load(bytes, owner, order[..k], owner[order[k]]) + bytes[order[k]]) <= (4 * ranks - 1) * bound
  {
    LaterIsNoLarger(bytes, order, k);
    GreedyPlacement(bytes, owner, order[..k], order[k], owner[order[k]], other, ranks, bound);
  }

  lemma FewerItemsWeighLess(bytes: seq<int>, other: seq<nat>, items: seq<nat>, x: nat, ranks: nat, bound: int)
    requires |other| == |bytes| && Indices(items, |bytes|) && x < |bytes| && bytes[x] >= 0
    requires LoadsAtMost(bytes, other, items + [x], ranks, bound)
    ensures LoadsAtMost(bytes, other, items, ranks, bound)
  {
    forall q: nat | q < ranks ensures Load(bytes, other, items, q) <= bound {
      LoadAppend(bytes, other, items, x, q);
      assert Load(bytes, other, items + [x], q) <= bound;
    }
  }

  lemma LaterIsNoLarger(bytes: seq<int>, order: seq<nat>, k: nat)
    requires Indices(order, |bytes|) && StableDescending(bytes, order) && k < |order|
    ensures SizesAtLeast(bytes, order[..k], bytes[order[k]])
  {
  }

  /** Graham's bound: whatever assignment `other` is, and whatever its heaviest load `bound`, no rank of
      the greedy assignment exceeds (4/3 - 1/(3 * ranks)) times it. */
  lemma GrahamBound(bytes: seq<int>, owner: seq<nat>, other: seq<nat>, ranks: nat, bound: int, r: nat)
    requires |owner| == |bytes| == |other| && r < ranks && NonNegative(bytes)
    requires Assignment(owner, ranks) && Assignment(other, ranks)
    requires GreedyUpTo(bytes, owner, StableOrder(bytes), ranks, |bytes|)
    requires LoadsAtMost(bytes, other, AllItems(|bytes|), ranks, bound)
    ensures 3 * ranks * Load(bytes, owner, AllItems(|bytes|), r) <= (4 * ranks - 1) * bound
  {
    var order, all := StableOrder(bytes), AllItems(|bytes|);
    StableOrderSorts(bytes);
    assert order[..|bytes|] == order;
    forall q: nat | q < ranks ensures Load(bytes, other, order, q) <= bound {
      LoadOrderFree(bytes, other, all, order, q);
    }
    LoadOrderFree(bytes, owner, all, order, r);
    GreedyPrefix(bytes, owner, order, other, ranks, bound, |bytes|, r);
  }

  /** The factor cannot be improved: with two ranks, sizes 3, 3, 2, 2, 2 give 7 against an optimal 6. */
  lemma GrahamBoundIsTight(bytes: seq<int>, owner: seq<nat>, other: seq<nat>, order: seq<nat>)
    requires bytes == [3, 3, 2, 2, 2] && owner == [0, 1, 0, 1, 0] && other == [0, 0, 1, 1, 1]
    requires order == AllItems(|bytes|)
    ensures order == StableOrder(bytes)
    ensures GreedyUpTo(bytes, owner, order, 2, |bytes|)
    ensures LoadsAtMost(bytes, other, order, 2, 6)
    ensures 3 * 2 * Load(bytes, owner, order, 0) == (4 * 2 - 1) * 6
  {
    SortedStays(bytes);
    TightGreedy(bytes, owner, order);
    TightLoads(bytes, owner, other);
  }

  lemma TightGreedy(bytes: seq<int>, owner: seq<nat>, order: seq<nat>)
    requires bytes == [3, 3, 2, 2, 2] && owner == [0, 1, 0, 1, 0] && order == AllItems(|bytes|)
    ensures GreedyUpTo(bytes, owner, order, 2, |bytes|)
  {
    forall k: nat | k < |bytes| ensures GreedyAt(bytes, owner, order, 2, k) {
      TightPlacement(bytes, owner, k);
    }
  }

  lemma TightLoads(bytes: seq<int>, owner: seq<nat>, other: seq<nat>)
    requires bytes == [3, 3, 2, 2, 2] && owner == [0, 1, 0, 1, 0] && other == [0, 0, 1, 1, 1]
    ensures Load(bytes, owner, AllItems(|bytes|), 0) == 7
    ensures Load(bytes, other, AllItems(|bytes|), 0) == 6 == Load(bytes, other, AllItems(|bytes|), 1)
  {
    FiveLoads(bytes, owner, 0);
    FiveLoads(bytes, other, 0);
    FiveLoads(bytes, other, 1);
  }

  lemma TightPlacement(bytes: seq<int>, owner: seq<nat>, k: nat)
    requires bytes == [3, 3, 2, 2, 2] && owner == [0, 1, 0, 1, 0] && k < 5
    ensures GreedyAt(bytes, owner, AllItems(|bytes|), 2, k)
  {
    FiveLoads(bytes, owner, 0);
    FiveLoads(bytes, owner, 1);
  }

  lemma FiveLoads(bytes: seq<int>, owner: seq<nat>, r: nat)
    requires |bytes| == 5 == |owner|
    ensures var all := AllItems(|bytes|);
            && Load(bytes, owner, all[..0], r) == 0
            && Load(bytes, owner, all[..1], r)
               == Load(bytes, owner, all[..0], r) + (if owner[0] == r then bytes[0] else 0)
            && Load(bytes, owner, all[..2], r)
               == Load(bytes, owner, all[..1], r) + (if owner[1] == r then bytes[1] else 0)
            && Load(bytes, owner, all[..3], r)
               == Load(bytes, owner, all[..2], r) + (if owner[2] == r then bytes[2] else 0)
            && Load(bytes, owner, all[..4], r)
               == Load(bytes, owner, all[..3], r) + (if owner[3] == r then bytes[3] else 0)
            && Load(bytes, owner, all, r) == Load(bytes, owner, all[..4], r) + (if owner[4] == r then bytes[4] else 0)
  {
    var all := AllItems(|bytes|);
    assert all[..1] == all[..0] + [0] && all[..2] == all[..1] + [1] && all[..3] == all[..2] + [2];
    assert all[..4] == all[..3] + [3] && all == all[..4] + [4];
    LoadAppend(bytes, owner, all[..0], 0, r);
    LoadAppend(bytes, owner, all[..1], 1, r);
    LoadAppend(bytes, owner, all[..2], 2, r);
    LoadAppend(bytes, owner, all[..3], 3, r);
    LoadAppend(bytes, owner, all[..4], 4, r);
  }

  lemma {:induction false} SortedStays(bytes: seq<int>)
    requires forall i, j | 0 <= i < j < |bytes| :: bytes[i] >= bytes[j]
    ensures StableOrder(bytes) == AllItems(|bytes|)
  {
    if bytes != [] {
      var n := |bytes| - 1;
      SortedStays(bytes[..n]);
      forall i | 0 <= i < |bytes| ensures bytes[i] >= bytes[n] {}
      NoneSmaller(bytes, AllItems(n), 0);
    }
  }

  lemma {:induction false} NoneSmaller(bytes: seq<int>, order: seq<nat>, k: nat)
    requires bytes != [] && Indices(order, |bytes| - 1) && k <= |order|
    requires forall i | 0 <= i < |bytes| :: bytes[i] >= bytes[|bytes| - 1]
    ensures FirstSmaller(bytes, order, k) == |order|
    decreases |order| - k
  {
    if k < |order| { NoneSmaller(bytes, order, k + 1); }
  }
}

/** Greedy cutting of tensors into buckets below a byte limit. */
module Buckets {

  /** What the bucketing loops look at. */
  datatype Meta = Meta(name: string, dtype: int, device: int, elementSize: nat, numel: nat) {
    function Bytes(): nat {
      numel * elementSize
    }

    predicate SameKind(other: Meta) {
      dtype == other.dtype && device == other.device
    }
  }

  /** The tensors from `begin` up to but not including `end`. */
  datatype Bucket = Bucket(begin: nat, end: nat)

  function BytesOf(metas: seq<Meta>, begin: nat, end: nat): nat
    requires end <= |metas|
  {
    if begin >= end then 0 else BytesOf(metas, begin, end - 1) + metas[end - 1].Bytes()
  }

  /** Tensor `i` does not go into the bucket that was begun at `begin`. */
  predicate Flushes(metas: seq<Meta>, begin: nat, i: nat, limit: nat)
    requires begin <= i < |metas|
  {
    begin < i && (!metas[i].SameKind(metas[begin]) || BytesOf(metas, begin, i) + metas[i].Bytes() > limit)
  }

  /** The buckets still to be cut when tensors from `begin` up to `i` are in the current one. */
  function BucketsFrom(metas: seq<Meta>, begin: nat, i: nat, limit: nat): seq<Bucket>
    requires begin <= i <= |metas|
    decreases |metas| - i
  {
    if i == |metas| then (if begin < i then [Bucket(begin, i)] else [])
    else if Flushes(metas, begin, i, limit) then [Bucket(begin, i)] + BucketsFrom(metas, i, i + 1, limit)
    else BucketsFrom(metas, begin, i + 1, limit)
  }

  function AllBuckets(metas: seq<Meta>, limit: nat): seq<Bucket> {
    BucketsFrom(metas, 0, 0, limit)
  }

  // ----- what the buckets are

  predicate OneKind(metas: seq<Meta>, begin: nat, end: nat)
    requires begin <= end <= |metas|
  {
    forall i | begin <= i < end :: metas[i].SameKind(metas[begin])
  }

  /** One dtype and device, and within the limit unless it is a single tensor. */
  predicate Fits(metas: seq<Meta>, b: Bucket, limit: nat) {
    && b.begin < b.end <= |metas| && OneKind(metas, b.begin, b.end)
    && (BytesOf(metas, b.begin, b.end) <= limit || b.end == b.begin + 1)
  }

  /** The next tensor could not have been added. */
  predicate Full(metas: seq<Meta>, b: Bucket, limit: nat)
    requires b.begin < b.end <= |metas|
  {
    b.end == |metas| || Flushes(metas, b.begin, b.end, limit)
  }

  predicate Chained(buckets: seq<Bucket>, begin: nat, end: nat) {
    if buckets == [] then begin == end
    else buckets[0].begin == begin < buckets[0].end && Chained(buckets[1..], buckets[0].end, end)
  }

  /** Buckets that tile the list, each fitting and full. */
  predicate Greedy(metas: seq<Meta>, buckets: seq<Bucket>, begin: nat, limit: nat) {
    && Chained(buckets, begin, |metas|)
    && forall k | 0 <= k < |buckets| :: Fits(metas, buckets[k], limit) && Full(metas, buckets[k], limit)
  }

  lemma GreedyCons(metas: seq<Meta>, b: Bucket, rest: seq<Bucket>, limit: nat)
    requires Fits(metas, b, limit) && Full(metas, b, limit) && Greedy(metas, rest, b.end, limit)
    ensures Greedy(metas, [b] + rest, b.begin, limit)
  {
    assert ([b] + rest)[1..] == rest;
  }

  lemma {:induction false} BucketsAreGreedy(metas: seq<Meta>, begin: nat, i: nat, limit: nat)
    requires begin <= i <= |metas| && (begin == i ==> i == |metas| || i == 0)
    requires begin < i ==> Fits(metas, Bucket(begin, i), limit)
    ensures Greedy(metas, BucketsFrom(metas, begin, i, limit), begin, limit)
    decreases |metas| - i
  {
    if i == |metas| {
      if begin < i { GreedyCons(metas, Bucket(begin, i), [], limit); }
    } else if Flushes(metas, begin, i, limit) {
      BucketsAreGreedy(metas, i, i + 1, limit);
      GreedyCons(metas, Bucket(begin, i), BucketsFrom(metas, i, i + 1, limit), limit);
    } else {
      BucketsAreGreedy(metas, begin, i + 1, limit);
    }
  }

  /** A stretch's bytes: each tensor has its number of elements times their size, and stretches add up. */
  lemma {:induction false} BytesAdd(metas: seq<Meta>, begin: nat, middle: nat, end: nat)
    requires begin <= middle <= end <= |metas|
    ensures BytesOf(metas, begin, end) == BytesOf(metas, begin, middle) + BytesOf(metas, middle, end)
    ensures end == middle + 1 ==> BytesOf(metas, middle, end) == metas[middle].numel * metas[middle].elementSize
    decreases end
  {
    if end == middle + 1 {
      assert BytesOf(metas, middle, middle) == 0;
    } else if middle < end {
      BytesAdd(metas, begin, middle, end - 1);
    }
  }

  /** What cutting gives, spelled out: every bucket is of one dtype on one device, only a single tensor may exceed
      the limit, and a bucket ends at the last tensor or before one of another kind or too large to join it. */
  lemma BucketSpelledOut(metas: seq<Meta>, limit: nat, k: nat)
    requires k < |AllBuckets(metas, limit)|
    ensures var b := AllBuckets(metas, limit)[k];
            && b.begin < b.end <= |metas|
            && (forall i | b.begin <= i < b.end ::
                  metas[i].dtype == metas[b.begin].dtype && metas[i].device == metas[b.begin].device)
            && (b.begin + 1 < b.end ==> BytesOf(metas, b.begin, b.end) <= limit)
            && (b.end == |metas| || metas[b.end].dtype != metas[b.begin].dtype
                || metas[b.end].device != metas[b.begin].device || BytesOf(metas, b.begin, b.end + 1) > limit)
  {
    BucketsAreGreedy(metas, 0, 0, limit);
    var b := AllBuckets(metas, limit)[k];
    assert Fits(metas, b, limit) && Full(metas, b, limit);
  }

  lemma {:induction false} BytesGrow(metas: seq<Meta>, begin: nat, i: nat, end: nat)
    requires begin <= i <= end <= |metas|
    ensures BytesOf(metas, begin, i) <= BytesOf(metas, begin, end)
    decreases end
  {
    if i < end { BytesGrow(metas, begin, i, end - 1); }
  }

  /** A fitting bucket was not full before its end. */
  lemma NotFullEarlier(metas: seq<Meta>, b: Bucket, i: nat, limit: nat)
    requires Fits(metas, b, limit) && b.begin < i < b.end
    ensures !Flushes(metas, b.begin, i, limit)
  {
    BytesGrow(metas, b.begin, i + 1, b.end);
  }

  /** Only one list of buckets tiles the tensors with fitting, full buckets. */
  lemma {:induction false} GreedyIsUnique(metas: seq<Meta>, a: seq<Bucket>, b: seq<Bucket>, begin: nat, limit: nat)
    requires Greedy(metas, a, begin, limit) && Greedy(metas, b, begin, limit)
    ensures a == b
    decreases |a|
  {
    if a == [] || b == [] {
      if a != [] { ChainedEnd(a, begin, |metas|); }
      if b != [] { ChainedEnd(b, begin, |metas|); }
    } else {
      if a[0].end < b[0].end { NotFullEarlier(metas, b[0], a[0].end, limit); }
      if b[0].end < a[0].end { NotFullEarlier(metas, a[0], b[0].end, limit); }
      assert a[0] == b[0];
      GreedyIsUnique(metas, a[1..], b[1..], a[0].end, limit);
      assert a == [a[0]] + a[1..] && b == [b[0]] + b[1..];
    }
  }

  lemma {:induction false} ChainedEnd(buckets: seq<Bucket>, begin: nat, end: nat)
    requires Chained(buckets, begin, end)
    ensures begin <= end && (buckets != [] ==> begin < end)
  {
    if buckets != [] { ChainedEnd(buckets[1..], buckets[0].end, end); }
  }

  /** The loops cut exactly the greedy buckets. */
  lemma AllBucketsAreGreedy(metas: seq<Meta>, buckets: seq<Bucket>, limit: nat)
    ensures Greedy(metas, buckets, 0, limit) <==> buckets == AllBuckets(metas, limit)
  {
    BucketsAreGreedy(metas, 0, 0, limit);
    if Greedy(metas, buckets, 0, limit) { GreedyIsUnique(metas, buckets, AllBuckets(metas, limit), 0, limit); }
  }
}

/** Byte-pair merging, lowest rank first. */
module BytePairs {
  import opened Chunks
  import opened LittleEndian

  const INT32_MAX := 0x7FFF_FFFF

  type Ranks = map<(Bytes, Bytes), I32>

  /** The rank of the pair at `i`; one without a rank is never below the largest integer. */
  function RankAt(ranks: Ranks, parts: seq<Bytes>, i: nat): int
    requires i + 1 < |parts|
  {
    var pair := (parts[i], parts[i + 1]);
    if pair in ranks then ranks[pair] else INT32_MAX
  }

  /** Among the first `n` pairs, `i` is the leftmost of lowest rank. */
  predicate BestOf(ranks: Ranks, parts: seq<Bytes>, n: nat, i: nat) {
    && i < n < |parts| && RankAt(ranks, parts, i) < INT32_MAX
    && (forall j | 0 <= j < i :: RankAt(ranks, parts, i) < RankAt(ranks, parts, j))
    && (forall j | i <= j < n :: RankAt(ranks, parts, i) <= RankAt(ranks, parts, j))
  }

  predicate Best(ranks: Ranks, parts: seq<Bytes>, i: nat) {
    |parts| > 1 && BestOf(ranks, parts, |parts| - 1, i)
  }

  predicate NoneRanked(ranks: Ranks, parts: seq<Bytes>, n: nat)
    requires n < |parts| || n == 0
  {
    forall j | 0 <= j < n :: RankAt(ranks, parts, j) >= INT32_MAX
  }

  function MergeAt(parts: seq<Bytes>, i: nat): (merged: seq<Bytes>)
    requires i + 1 < |parts|
    ensures |merged| == |parts| - 1
  {
    parts[..i] + [parts[i] + parts[i + 1]] + parts[i + 2..]
  }

  /** What merging ends with. */
  ghost function Merged(ranks: Ranks, parts: seq<Bytes>): seq<Bytes>
    decreases |parts|
  {
    if exists i :: Best(ranks, parts, i) then
      var i :| Best(ranks, parts, i);
      Merged(ranks, MergeAt(parts, i))
    else parts
  }

  lemma BestIsUnique(ranks: Ranks, parts: seq<Bytes>, i: nat, j: nat)
    requires Best(ranks, parts, i) && Best(ranks, parts, j)
    ensures i == j
  {
    assert RankAt(ranks, parts, i) <= RankAt(ranks, parts, j) && RankAt(ranks, parts, j) <= RankAt(ranks, parts, i);
  }

  lemma MergedStep(ranks: Ranks, parts: seq<Bytes>, i: nat)
    requires Best(ranks, parts, i)
    ensures Merged(ranks, parts) == Merged(ranks, MergeAt(parts, i))
  {
    var j :| Best(ranks, parts, j) && Merged(ranks, parts) == Merged(ranks, MergeAt(parts, j));
    BestIsUnique(ranks, parts, i, j);
  }

  lemma NoBest(ranks: Ranks, parts: seq<Bytes>)
    requires |parts| <= 1 || NoneRanked(ranks, parts, |parts| - 1)
    ensures Merged(ranks, parts) == parts
  {
    forall i: nat ensures !Best(ranks, parts, i) {
      assert i + 1 < |parts| ==> RankAt(ranks, parts, i) >= INT32_MAX;
    }
  }

  method FindBest(ranks: Ranks, parts: seq<Bytes>) returns (found: bool, index: nat)
    requires |parts| > 1
    ensures if found then Best(ranks, parts, index) else NoneRanked(ranks, parts, |parts| - 1)
  {
    var rank: int := INT32_MAX;
    index, found := 0, false;
    var i := 0;
    while i + 1 < |parts|
      invariant 0 <= i < |parts|
      invariant if found then BestOf(ranks, parts, i, index) && rank == RankAt(ranks, parts, index)
                else rank == INT32_MAX && NoneRanked(ranks, parts, i)
    {
      var pair := (parts[i], parts[i + 1]);
      if pair in ranks && ranks[pair] < rank {
        assert RankAt(ranks, parts, i) < rank;
        rank, index, found := ranks[pair], i, true;
      } else {
        assert RankAt(ranks, parts, i) >= rank;
      }
      i := i + 1;
    }
  }

  /** The merge loop; it ends because every merge leaves one part fewer. */
  method Merge(ranks: Ranks, start: seq<Bytes>) returns (parts: seq<Bytes>)
    ensures parts == Merged(ranks, start)
  {
    parts := start;
    while |parts| > 1
      invariant Merged(ranks, parts) == Merged(ranks, start)
      decreases |parts|
    {
      var found, best := FindBest(ranks, parts);
      if !found { break; }
      MergedStep(ranks, parts, best);
      ghost var next := MergeAt(parts, best);
      parts := parts[best := parts[best] + parts[best + 1]];
      parts := parts[..best + 1] + parts[best + 2..];
      assert parts == next;
    }
    NoBest(ranks, parts);
  }

  // ----- what merging keeps and reaches

  lemma PairConcat(x: Bytes, y: Bytes)
    ensures Gather([x, y]) == x + y
  {
    assert [x] + [y] == [x, y];
    GatherAppend([x], [y]);
    GatherOne(x);
    GatherOne(y);
  }

  lemma ThreeConcat(a: seq<Bytes>, b: seq<Bytes>, c: seq<Bytes>)
    ensures Gather(a + b + c) == Gather(a) + Gather(b) + Gather(c)
  {
    GatherAppend(a + b, c);
    GatherAppend(a, b);
  }

  lemma SplitAround<T>(s: seq<T>, i: nat)
    requires i + 1 < |s|
    ensures s[..i] + [s[i], s[i + 1]] + s[i + 2..] == s
  {
  }

  lemma Rejoin(a: seq<Bytes>, x: Bytes, y: Bytes, c: seq<Bytes>)
    ensures Gather(a + [x + y] + c) == Gather(a + [x, y] + c)
  {
    ThreeConcat(a, [x, y], c);
    ThreeConcat(a, [x + y], c);
    PairConcat(x, y);
    GatherOne(x + y);
  }

  lemma MergeAtKeeps(parts: seq<Bytes>, i: nat)
    requires i + 1 < |parts|
    ensures Gather(MergeAt(parts, i)) == Gather(parts)
  {
    Rejoin(parts[..i], parts[i], parts[i + 1], parts[i + 2..]);
    SplitAround(parts, i);
  }

  /** Merging never changes the bytes. */
  lemma {:induction false} MergedKeeps(ranks: Ranks, parts: seq<Bytes>)
    ensures Gather(Merged(ranks, parts)) == Gather(parts)
    decreases |parts|
  {
    if i: nat :| Best(ranks, parts, i) {
      MergedStep(ranks, parts, i);
      MergedKeeps(ranks, MergeAt(parts, i));
      MergeAtKeeps(parts, i);
    } else {
    }
  }

  /** A ranked pair among the first `n` gives a best one among them. */
  lemma {:induction false} BestExists(ranks: Ranks, parts: seq<Bytes>, n: nat) returns (i: nat)
    requires n < |parts|
    ensures NoneRanked(ranks, parts, n) || BestOf(ranks, parts, n, i)
  {
    i := 0;
    if n > 0 {
      i := BestExists(ranks, parts, n - 1);
      var last := RankAt(ranks, parts, n - 1);
      if NoneRanked(ranks, parts, n - 1) {
        if last < INT32_MAX { i := n - 1; }
      } else if last < RankAt(ranks, parts, i) {
        i := n - 1;
      }
    }
  }

  /** Merging stops only when no adjacent pair has a rank. */
  lemma {:induction false} MergedIsDone(ranks: Ranks, parts: seq<Bytes>, done: seq<Bytes>)
    requires done == Merged(ranks, parts)
    ensures |done| <= 1 || NoneRanked(ranks, done, |done| - 1)
    decreases |parts|
  {
    if i: nat :| Best(ranks, parts, i) {
      MergedStep(ranks, parts, i);
      MergedIsDone(ranks, MergeAt(parts, i), done);
    } else if |parts| > 1 {
      var j := BestExists(ranks, parts, |parts| - 1);
      assert !Best(ranks, parts, j);
    }
  }

  /** Merging two ranked tokens gives a token of the vocabulary. */
  predicate ClosedUnderMerges(vocab: map<Bytes, int>, ranks: Ranks) {
    forall pair | pair in ranks :: pair.0 + pair.1 in vocab
  }

  predicate AllTokens(vocab: map<Bytes, int>, parts: seq<Bytes>) {
    forall i | 0 <= i < |parts| :: parts[i] in vocab
  }

  /** Starting from tokens, merging ends in tokens. */
  lemma {:induction false} MergedAreTokens(vocab: map<Bytes, int>, ranks: Ranks, parts: seq<Bytes>)
    requires ClosedUnderMerges(vocab, ranks) && AllTokens(vocab, parts)
    ensures AllTokens(vocab, Merged(ranks, parts))
    decreases |parts|
  {
    if i: nat :| Best(ranks, parts, i) {
      MergedStep(ranks, parts, i);
      var pair := (parts[i], parts[i + 1]);
      assert pair in ranks;
      assert pair.0 + pair.1 in vocab;
      MergedAreTokens(vocab, ranks, MergeAt(parts, i));
    } else {
    }
  }
}

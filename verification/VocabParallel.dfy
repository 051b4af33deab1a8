/** Log-probabilities over a split vocabulary. */
module VocabParallel {
  import opened Chunks
  import opened Results
  import opened Sequences
  import opened StreamingAttention
  import opened Sums

  ghost predicate IsLog(exp: real -> real, log: real -> real) {
    && (forall a :: log(exp(a)) == a)
    && (forall a, b | a > 0.0 && b > 0.0 :: LogProduct(log, a, b))
  }

  predicate LogProduct(log: real -> real, a: real, b: real) {
    log(a * b) == log(a) + log(b)
  }

  // ----- the dense reference: log_softmax and gather

  function ExpAt(exp: real -> real, logits: seq<real>, shift: real): nat -> real {
    (p: nat) => if p < |logits| then exp(logits[p] - shift) else 0.0
  }

  function DenseLogProb(exp: real -> real, log: real -> real, logits: seq<real>, target: nat): real
    requires target < |logits|
  {
    logits[target] - log(SumTo(|logits|, ExpAt(exp, logits, 0.0)))
  }

  // ----- one rank

  predicate IsMaxOf(m: real, s: seq<real>) {
    m in s && forall i | 0 <= i < |s| :: s[i] <= m
  }

  method LocalMax(s: seq<real>) returns (m: real)
    requires s != []
    ensures IsMaxOf(m, s)
  {
    m := s[0];
    for i := 1 to |s|
      invariant m in s[..i] && forall j | 0 <= j < i :: s[j] <= m
    {
      if s[i] > m { m := s[i]; }
    }
  }

  method LocalExpSum(exp: real -> real, logits: seq<real>, shift: real) returns (sum: real)
    ensures sum == SumTo(|logits|, ExpAt(exp, logits, shift))
  {
    sum := 0.0;
    for i := 0 to |logits|
      invariant sum == SumTo(i, ExpAt(exp, logits, shift))
    {
      sum := sum + exp(logits[i] - shift);
    }
  }

  /** The clamped gather, multiplied by the mask. */
  function LocalTarget(logits: seq<real>, start: int, target: int): (value: real)
    requires logits != []
    ensures value == if start <= target < start + |logits| then logits[target - start] else 0.0
  {
    var mask := if target >= start && target < start + |logits| then 1.0 else 0.0;
    logits[Clamp(target - start, 0, |logits| - 1)] * mask
  }

  // ----- all ranks

  function Shard(logits: seq<real>, r: nat, local: nat): (s: seq<real>)
    requires r * local + local <= |logits|
    ensures |s| == local && forall i | 0 <= i < local :: s[i] == logits[r * local + i]
  {
    logits[r * local..r * local + local]
  }

  predicate Split(logits: seq<real>, shards: seq<seq<real>>, local: nat) {
    && local > 0 && |logits| == |shards| * local
    && forall r: nat | r < |shards| :: ShardOf(logits, shards[r], r * local, local)
  }

  predicate ShardOf(logits: seq<real>, shard: seq<real>, begin: nat, local: nat) {
    |shard| == local && forall i: nat | i < local :: ShardEntry(logits, shard, begin, i)
  }

  predicate ShardEntry(logits: seq<real>, shard: seq<real>, begin: int, i: nat) {
    i < |shard| && 0 <= begin && begin + i < |logits| && shard[i] == logits[begin + i]
  }

  method SplitVocab(logits: seq<real>, size: nat) returns (r: Result<seq<seq<real>>>)
    requires size > 0 && logits != []
    ensures r.Ok? <==> |logits| % size == 0
    ensures r.Ok? ==> |r.value| == size && Split(logits, r.value, |logits| / size)
  {
    if |logits| % size != 0 { return Err("Qwen3.5 vocab size must be divisible by TP size"); }
    var local := |logits| / size;
    var shards: seq<seq<real>> := [];
    for k := 0 to size
      invariant |shards| == k
      invariant forall r: nat | r < k :: ShardOf(logits, shards[r], r * local, local)
    {
      MulAtLeast(size, k + 1, local);
      var shard := Shard(logits, k, local);
      assert ShardOf(logits, shard, k * local, local);
      shards := shards + [shard];
    }
    return Ok(shards);
  }

  /** all_reduce with Max over the ranks' maxima. */
  method GlobalMax(shards: seq<seq<real>>, local: nat, ghost logits: seq<real>) returns (m: real)
    requires shards != [] && Split(logits, shards, local)
    ensures IsMaxOf(m, logits)
  {
    var maxima: seq<real> := [];
    for r := 0 to |shards|
      invariant |maxima| == r && forall k | 0 <= k < r :: IsMaxOf(maxima[k], shards[k])
    {
      assert ShardOf(logits, shards[r], r * local, local);
      var localMax := LocalMax(shards[r]);
      maxima := maxima + [localMax];
    }
    m := LocalMax(maxima);
    MaxOfMaxima(logits, shards, local, maxima, m);
  }

  lemma MaxOfMaxima(logits: seq<real>, shards: seq<seq<real>>, local: nat, maxima: seq<real>, m: real)
    requires Split(logits, shards, local) && |maxima| == |shards| && IsMaxOf(m, maxima)
    requires forall k | 0 <= k < |shards| :: IsMaxOf(maxima[k], shards[k])
    ensures IsMaxOf(m, logits)
  {
    forall p | 0 <= p < |logits| ensures logits[p] <= m {
      var r, i := Locate(p, local, |shards|);
      assert ShardEntry(logits, shards[r], r * local, i);
    }
    var k :| 0 <= k < |maxima| && maxima[k] == m;
    var j :| 0 <= j < |shards[k]| && shards[k][j] == m;
    assert ShardEntry(logits, shards[k], k * local, j);
  }

  /** local + (reduced - local).detach() */
  function KeepLocal(local: real, reduced: real): (value: real)
    ensures value == reduced
  {
    local + (reduced - local)
  }

  function PerRank(values: seq<real>): nat -> real {
    (r: nat) => if r < |values| then values[r] else 0.0
  }

  method SumRanks(values: seq<real>) returns (total: real)
    ensures total == SumTo(|values|, PerRank(values))
  {
    total := 0.0;
    for r := 0 to |values|
      invariant total == SumTo(r, PerRank(values))
    {
      total := total + values[r];
    }
  }

  lemma {:induction false} ChunkedSum(logits: seq<real>, shards: seq<seq<real>>, local: nat, f: nat -> real,
                                      parts: seq<real>, n: nat)
    requires n <= |shards| == |parts|
    requires forall r: nat | r < n :: PartSum(local, f, r, parts[r])
    ensures SumTo(n * local, f) == SumTo(n, PerRank(parts))
  {
    if n > 0 {
      ChunkedSum(logits, shards, local, f, parts, n - 1);
      assert PartSum(local, f, n - 1, parts[n - 1]);
      var last := (i: nat) => f((n - 1) * local + i);
      SumSplit((n - 1) * local, local, f, last);
      assert (n - 1) * local + local == n * local;
    }
  }

  /** `part` is the sum over chunk `r`. */
  predicate PartSum(local: nat, f: nat -> real, r: nat, part: real) {
    part == SumTo(local, (i: nat) => f(r * local + i))
  }

  lemma ExpPart(exp: real -> real, logits: seq<real>, shards: seq<seq<real>>, local: nat, shift: real, r: nat)
    requires Split(logits, shards, local) && r < |shards|
    ensures PartSum(local, ExpAt(exp, logits, shift), r, SumTo(|shards[r]|, ExpAt(exp, shards[r], shift)))
  {
    assert ShardOf(logits, shards[r], r * local, local);
    forall i: nat | i < local ensures ExpAt(exp, shards[r], shift)(i) == ExpAt(exp, logits, shift)(r * local + i) {
      assert ShardEntry(logits, shards[r], r * local, i);
    }
    SumEqual(local, ExpAt(exp, shards[r], shift), (i: nat) => ExpAt(exp, logits, shift)(r * local + i));
  }

  method GlobalExpSum(exp: real -> real, shards: seq<seq<real>>, local: nat, shift: real, rank: nat,
                      ghost logits: seq<real>)
    returns (sum: real)
    requires rank < |shards| && Split(logits, shards, local)
    ensures sum == SumTo(|logits|, ExpAt(exp, logits, shift))
  {
    var parts: seq<real> := [];
    for r := 0 to |shards|
      invariant |parts| == r && forall k: nat | k < r :: PartSum(local, ExpAt(exp, logits, shift), k, parts[k])
    {
      var part := LocalExpSum(exp, shards[r], shift);
      ExpPart(exp, logits, shards, local, shift, r);
      parts := parts + [part];
    }
    var reduced := SumRanks(parts);
    sum := KeepLocal(parts[rank], reduced);
    ChunkedSum(logits, shards, local, ExpAt(exp, logits, shift), parts, |shards|);
  }

  function TargetOf(logits: seq<real>, target: int): real {
    if 0 <= target < |logits| then logits[target] else 0.0
  }

  method GlobalTarget(shards: seq<seq<real>>, local: nat, target: int, rank: nat, ghost logits: seq<real>)
    returns (value: real)
    requires rank < |shards| && Split(logits, shards, local)
    ensures value == TargetOf(logits, target)
  {
    var parts: seq<real> := [];
    for r := 0 to |shards|
      invariant |parts| == r && forall k: nat | k < r :: OwnersTarget(shards, local, target, k, parts[k])
    {
      assert ShardOf(logits, shards[r], r * local, local);
      var part := LocalTarget(shards[r], r * local, target);
      parts := parts + [part];
    }
    var reduced := SumRanks(parts);
    value := KeepLocal(parts[rank], reduced);
    TargetSum(logits, shards, local, target, parts, |shards|);
  }

  predicate OwnersTarget(shards: seq<seq<real>>, local: nat, target: int, r: nat, part: real) {
    && r < |shards| && |shards[r]| == local
    && part == if r * local <= target < r * local + local then shards[r][target - r * local] else 0.0
  }

  /** Only the owner of the target contributes. */
  lemma {:induction false} TargetSum(logits: seq<real>, shards: seq<seq<real>>, local: nat, target: int,
                                     parts: seq<real>, n: nat)
    requires Split(logits, shards, local) && n <= |parts| == |shards|
    requires forall r: nat | r < n :: OwnersTarget(shards, local, target, r, parts[r])
    ensures SumTo(n, PerRank(parts)) == if 0 <= target < n * local then TargetOf(logits, target) else 0.0
  {
    if n > 0 {
      TargetSum(logits, shards, local, target, parts, n - 1);
      assert OwnersTarget(shards, local, target, n - 1, parts[n - 1]);
      assert n * local == (n - 1) * local + local;
      MulAtLeast(|shards|, n, local);
      if (n - 1) * local <= target < n * local {
        assert ShardEntry(logits, shards[n - 1], (n - 1) * local, target - (n - 1) * local);
      }
    }
  }

  /** The value rank `rank` ends with: on every rank the dense log-probability. Alone, a rank gathers from the
      dense result and refuses a target outside the vocabulary; several ranks take it for a logit of zero. */
  method LogProb(exp: real -> real, log: real -> real, logits: seq<real>, size: nat, rank: nat, target: int)
    returns (r: Result<real>)
    requires IsExp(exp) && IsLog(exp, log) && rank < size && logits != []
    ensures r.Ok? <==> if size == 1 then 0 <= target < |logits| else |logits| % size == 0
    ensures r.Ok? && 0 <= target < |logits| ==> r.value == DenseLogProb(exp, log, logits, target)
    ensures r.Ok? && !(0 <= target < |logits|) ==> r.value == 0.0 - log(SumTo(|logits|, ExpAt(exp, logits, 0.0)))
  {
    if size == 1 {
      if target < 0 || target >= |logits| { return Err("index out of bounds"); }
      var total := LocalExpSum(exp, logits, 0.0);
      return Ok(logits[target] - log(total));
    }
    var shards :- SplitVocab(logits, size);
    var local := |logits| / size;
    var max := GlobalMax(shards, local, logits);
    var sum := GlobalExpSum(exp, shards, local, max, rank, logits);
    var value := GlobalTarget(shards, local, target, rank, logits);
    ShiftedLogSum(exp, log, logits, max);
    return Ok(value - max - log(sum));
  }

  // ----- shifting by the maximum

  lemma {:induction false} PositiveSum(exp: real -> real, logits: seq<real>, shift: real, n: nat)
    requires IsExp(exp) && n <= |logits|
    ensures SumTo(n, ExpAt(exp, logits, shift)) >= 0.0 && (n > 0 ==> SumTo(n, ExpAt(exp, logits, shift)) > 0.0)
  {
    if n > 0 {
      PositiveSum(exp, logits, shift, n - 1);
      assert Positive(exp, logits[n - 1] - shift);
    }
  }

  lemma LogOfProduct(log: real -> real, a: real, b: real, product: real)
    requires a > 0.0 && b > 0.0 && product == a * b
    requires forall x, y | x > 0.0 && y > 0.0 :: LogProduct(log, x, y)
    ensures log(product) == log(a) + log(b)
  {
    assert LogProduct(log, a, b);
  }

  lemma ShiftedLogSum(exp: real -> real, log: real -> real, logits: seq<real>, shift: real)
    requires IsExp(exp) && IsLog(exp, log) && logits != []
    ensures shift + log(SumTo(|logits|, ExpAt(exp, logits, shift))) == log(SumTo(|logits|, ExpAt(exp, logits, 0.0)))
  {
    var shifted, plain := ExpAt(exp, logits, shift), ExpAt(exp, logits, 0.0);
    forall p: nat | p < |logits| ensures plain(p) == exp(shift) * shifted(p) {
      assert AddLaw(exp, shift, logits[p] - shift);
    }
    SumScale(|logits|, exp(shift), shifted, plain);
    PositiveSum(exp, logits, shift, |logits|);
    assert Positive(exp, shift) && log(exp(shift)) == shift;
    LogOfProduct(log, exp(shift), SumTo(|logits|, shifted), SumTo(|logits|, plain));
  }

  /** Shifting by the maximum makes every term at most 1 and one of them 1, so the sum is between 1 and the
      vocabulary size. */
  lemma SumIsBounded(exp: real -> real, logits: seq<real>, max: real)
    requires IsExp(exp) && IsMaxOf(max, logits) && forall a, b | a <= b :: exp(a) <= exp(b)
    ensures 1.0 <= SumTo(|logits|, ExpAt(exp, logits, max)) <= |logits| as real
  {
    var p :| 0 <= p < |logits| && logits[p] == max;
    SumBounds(exp, logits, max, p, |logits|);
  }

  lemma {:induction false} SumBounds(exp: real -> real, logits: seq<real>, max: real, p: nat, n: nat)
    requires IsExp(exp) && IsMaxOf(max, logits) && (forall a, b | a <= b :: exp(a) <= exp(b)) && n <= |logits|
    requires p < |logits| && logits[p] == max
    ensures 0.0 <= SumTo(n, ExpAt(exp, logits, max)) <= n as real
    ensures p < n ==> SumTo(n, ExpAt(exp, logits, max)) >= 1.0
  {
    if n > 0 {
      SumBounds(exp, logits, max, p, n - 1);
      assert logits[n - 1] - max <= 0.0 && Positive(exp, logits[n - 1] - max);
      assert exp(logits[n - 1] - max) <= exp(0.0);
    }
  }

  function Probability(exp: real -> real, log: real -> real, logits: seq<real>): nat -> real {
    (t: nat) => if t < |logits| then exp(DenseLogProb(exp, log, logits, t)) else 0.0
  }

  /** The reference is a distribution: over all targets the probabilities add up to one. */
  lemma ProbabilitiesSumToOne(exp: real -> real, log: real -> real, logits: seq<real>)
    requires IsExp(exp) && logits != [] && forall a | a > 0.0 :: exp(log(a)) == a
    ensures SumTo(|logits|, Probability(exp, log, logits)) == 1.0
  {
    var weights, total := ExpAt(exp, logits, 0.0), SumTo(|logits|, ExpAt(exp, logits, 0.0));
    PositiveSum(exp, logits, 0.0, |logits|);
    var share := exp(0.0 - log(total));
    assert share * total == 1.0 by {
      assert AddLaw(exp, 0.0 - log(total), log(total));
      assert exp(log(total)) == total;
    }
    forall t: nat | t < |logits| ensures Probability(exp, log, logits)(t) == share * weights(t) {
      assert AddLaw(exp, 0.0 - log(total), logits[t]);
      assert (0.0 - log(total)) + logits[t] == DenseLogProb(exp, log, logits, t);
      assert weights(t) == exp(logits[t]) by { assert logits[t] - 0.0 == logits[t]; }
    }
    SumScale(|logits|, share, weights, Probability(exp, log, logits));
  }
}

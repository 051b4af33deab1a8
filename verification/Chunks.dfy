/** Sequences cut into equal chunks, gathered and located. */
module Chunks {
  import opened Sequences

  /** All shards in rank order, as an all-gather returns them. */
  function Gather<T>(shards: seq<seq<T>>): seq<T> {
    if shards == [] then [] else Gather(shards[..|shards| - 1]) + shards[|shards| - 1]
  }

  lemma {:induction false} GatherAppend<T>(a: seq<seq<T>>, b: seq<seq<T>>)
    ensures Gather(a + b) == Gather(a) + Gather(b)
  {
    if b == [] {
      assert a + b == a;
    } else {
      var n := |b| - 1;
      assert (a + b)[..|a + b| - 1] == a + b[..n];
      GatherAppend(a, b[..n]);
      Reassociate(Gather(a), Gather(b[..n]), b[n]);
    }
  }

  lemma GatherOne<T>(x: seq<T>)
    ensures Gather([x]) == x
  {
    assert [x][..0] == [];
    assert Gather([x]) == Gather([x][..0]) + x;
  }

  lemma GatherCons<T>(x: seq<T>, xs: seq<seq<T>>)
    ensures Gather([x] + xs) == x + Gather(xs)
  {
    GatherOne(x);
    GatherAppend([x], xs);
  }

  lemma GatherFirst<T>(shards: seq<seq<T>>)
    requires shards != []
    ensures Gather(shards) == shards[0] + Gather(shards[1..])
  {
    GatherCons(shards[0], shards[1..]);
    assert [shards[0]] + shards[1..] == shards;
  }

  lemma {:induction false} GatherAt<T>(shards: seq<seq<T>>, shard: nat, r: nat, i: nat)
    requires forall k | 0 <= k < |shards| :: |shards[k]| == shard
    requires r < |shards| && i < shard
    ensures |Gather(shards)| == |shards| * shard
    ensures r * shard + i < |shards| * shard
    ensures Gather(shards)[r * shard + i] == shards[r][i]
  {
    var n := |shards| - 1;
    GatherLength(shards[..n], shard);
    assert |shards| * shard == n * shard + shard;
    if r < n {
      GatherAt(shards[..n], shard, r, i);
    }
  }

  lemma {:induction false} GatherLength<T>(shards: seq<seq<T>>, shard: nat)
    requires forall k | 0 <= k < |shards| :: |shards[k]| == shard
    ensures |Gather(shards)| == |shards| * shard
  {
    if shards != [] {
      GatherLength(shards[..|shards| - 1], shard);
      assert |shards| * shard == (|shards| - 1) * shard + shard;
    }
  }

  lemma Locate(p: nat, shard: nat, size: nat) returns (r: nat, i: nat)
    requires p < shard * size
    ensures r < size && i < shard && p == r * shard + i
  {
    r, i := p / shard, p % shard;
    MulAtLeast(r, size, shard);
  }

  lemma MulAtLeast(r: nat, size: nat, shard: nat)
    ensures r >= size ==> r * shard >= size * shard
  {
  }

  // ----- padding to a multiple of the number of ranks

  function PaddedLength(length: nat, size: nat): nat
    requires size > 0
  {
    if length % size == 0 then length else length + size - length % size
  }

  function ShardSize(length: nat, size: nat): nat
    requires size > 0
  {
    PaddedLength(length, size) / size
  }

  /** The shards cover the sequence and pad it by fewer rows than there are ranks. */
  lemma ShardsCover(length: nat, size: nat)
    requires size > 0
    ensures ShardSize(length, size) * size == PaddedLength(length, size)
    ensures length <= PaddedLength(length, size) < length + size
  {
    var q, rem := length / size, length % size;
    assert length == q * size + rem;
    if rem == 0 {
      DivExact(q, size);
    } else {
      assert PaddedLength(length, size) == (q + 1) * size;
      DivExact(q + 1, size);
    }
  }

  lemma DivExact(q: nat, size: nat)
    requires size > 0
    ensures q * size / size == q
  {
    var a := q * size;
    assert size * (q - a / size) == a % size;
    SmallMultiple(size, q - a / size);
  }

  /** A multiple of `size` strictly between -`size` and `size` is a zero multiple. */
  lemma SmallMultiple(size: nat, d: int)
    requires 0 - size < size * d < size
    ensures d == 0
  {
  }

  // ----- positions

  /** A position has one chunk and one place in it. */
  lemma SameChunk(a: nat, i: nat, b: nat, j: nat, chunk: nat)
    requires i < chunk && j < chunk && a * chunk + i == b * chunk + j
    ensures a == b && i == j
  {
    if a < b { MulAtLeast(b, a + 1, chunk); }
    if b < a { MulAtLeast(a, b + 1, chunk); }
  }

  lemma InChunk(a: nat, i: nat, size: nat, chunk: nat)
    requires a < size && i < chunk
    ensures 0 <= a * chunk && a * chunk + chunk <= size * chunk && a * chunk + i < size * chunk
  {
    MulAtLeast(size, a + 1, chunk);
  }

  // ----- all to all

  predicate Chunked<T>(data: seq<seq<T>>, chunk: nat) {
    forall r | 0 <= r < |data| :: |data[r]| == |data| * chunk
  }

  function Chunk<T>(row: seq<T>, r: nat, size: nat, chunk: nat): (c: seq<T>)
    requires r < size && |row| == size * chunk
    ensures |c| == chunk
  {
    MulAtLeast(size, r + 1, chunk);
    row[r * chunk..r * chunk + chunk]
  }

  function ChunksFor<T>(data: seq<seq<T>>, chunk: nat, r: nat): (chunks: seq<seq<T>>)
    requires Chunked(data, chunk) && r < |data|
    ensures |chunks| == |data|
    ensures forall s | 0 <= s < |data| :: |chunks[s]| == chunk && chunks[s] == Chunk(data[s], r, |data|, chunk)
  {
    seq(|data|, s requires 0 <= s < |data| => Chunk(data[s], r, |data|, chunk))
  }

  function Received<T>(data: seq<seq<T>>, chunk: nat, r: nat): (row: seq<T>)
    requires Chunked(data, chunk) && r < |data|
    ensures |row| == |data| * chunk
  {
    GatherLength(ChunksFor(data, chunk, r), chunk);
    Gather(ChunksFor(data, chunk, r))
  }

  /** The collective: rank r receives chunk r of every rank, in rank order. */
  function AllToAll<T>(data: seq<seq<T>>, chunk: nat): (out: seq<seq<T>>)
    requires Chunked(data, chunk)
    ensures |out| == |data| && (forall r | 0 <= r < |data| :: out[r] == Received(data, chunk, r)) && Chunked(out, chunk)
  {
    seq(|data|, r requires 0 <= r < |data| => Received(data, chunk, r))
  }

  /** Entry k of chunk s on rank r was entry k of chunk r on rank s. */
  lemma AllToAllAt<T>(data: seq<seq<T>>, chunk: nat, r: nat, s: nat, k: nat)
    requires Chunked(data, chunk) && r < |data| && s < |data| && k < chunk
    ensures s * chunk + k < |data| * chunk && r * chunk + k < |data| * chunk
    ensures AllToAll(data, chunk)[r][s * chunk + k] == data[s][r * chunk + k]
  {
    InChunk(s, k, |data|, chunk);
    InChunk(r, k, |data|, chunk);
    GatherAt(ChunksFor(data, chunk, r), chunk, s, k);
  }

  /** All-to-all is its own inverse, which is why its backward pass is another all-to-all. */
  lemma AllToAllInvolution<T>(data: seq<seq<T>>, chunk: nat)
    requires Chunked(data, chunk)
    ensures AllToAll(AllToAll(data, chunk), chunk) == data
  {
    hide Gather;
    var once := AllToAll(data, chunk);
    var twice := AllToAll(once, chunk);
    forall r: nat, p: nat | r < |data| && p < |data| * chunk ensures twice[r][p] == data[r][p] {
      var s, k := Locate(p, chunk, |data|);
      AllToAllAt(once, chunk, r, s, k);
      AllToAllAt(data, chunk, s, r, k);
    }
    forall r | 0 <= r < |data| ensures twice[r] == data[r] {}
  }
}

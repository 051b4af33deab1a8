/** Flat gradients reduce-scattered, whole or in buckets. */
module FlatCollectives {
  import opened Chunks
  import opened FlatShards
  import opened Results
  import opened Sequences
  import opened Sums
  import opened Vectors

  // ----- the collective

  /** One element of a reduction over all ranks. */
  function ReducedEntry(inputs: seq<Vec>, width: nat, average: bool, j: nat): real
    requires inputs != [] && Widths(inputs, width) && j < width
  {
    SumTo(|inputs|, Entry(inputs, width, j)) * if average then 1.0 / |inputs| as real else 1.0
  }

  function Reduced(inputs: seq<Vec>, width: nat, average: bool): (r: Vec)
    requires inputs != [] && Widths(inputs, width)
    ensures |r| == width && forall j: nat | j < width :: r[j] == ReducedEntry(inputs, width, average, j)
  {
    seq(width, j requires 0 <= j < width => ReducedEntry(inputs, width, average, j))
  }

  /** A sum grows by each further rank's entry, starting from the first rank's; the mean is the sum shared
      out among the ranks. */
  lemma ReducedLaws(inputs: seq<Vec>, v: Vec, width: nat, j: nat)
    requires Widths(inputs, width) && |v| == width && j < width
    ensures Widths(inputs + [v], width)
    ensures ReducedEntry(inputs + [v], width, false, j)
         == (if inputs == [] then 0.0 else ReducedEntry(inputs, width, false, j)) + v[j]
    ensures ReducedEntry(inputs + [v], width, false, j)
         == (|inputs| + 1) as real * ReducedEntry(inputs + [v], width, true, j)
  {
    var n, sum := |inputs|, ReducedEntry(inputs + [v], width, false, j);
    SumEqual(n, Entry(inputs + [v], width, j), Entry(inputs, width, j));
    assert ReducedEntry(inputs + [v], width, true, j) == sum * (1.0 / (n + 1) as real);
    ShareOut(sum, (n + 1) as real);
  }

  lemma ShareOut(sum: real, ranks: real)
    requires ranks > 0.0
    ensures ranks * (sum * (1.0 / ranks)) == sum
  {
    assert ranks * (1.0 / ranks) == 1.0;
  }

  /** On equal inputs the mean is the input and the sum as many times the input as there are ranks. */
  lemma {:induction false} EqualInputs(inputs: seq<Vec>, v: Vec, j: nat)
    requires inputs != [] && j < |v| && forall p | 0 <= p < |inputs| :: inputs[p] == v
    ensures Widths(inputs, |v|)
    ensures ReducedEntry(inputs, |v|, false, j) == |inputs| as real * v[j]
    ensures ReducedEntry(inputs, |v|, true, j) == v[j]
    decreases |inputs|
  {
    var n := |inputs| - 1;
    ReducedLaws(inputs[..n], v, |v|, j);
    assert inputs[..n] + [v] == inputs;
    if n > 0 { EqualInputs(inputs[..n], v, j); }
    assert |inputs| as real == n as real + 1.0;
    SameMultiple(|inputs| as real, ReducedEntry(inputs, |v|, true, j), v[j]);
  }

  lemma SameMultiple(ranks: real, a: real, b: real)
    requires ranks > 0.0 && ranks * a == ranks * b
    ensures a == b
  {
    assert ranks * (a - b) == 0.0;
  }

  lemma ReducedAlike(a: seq<Vec>, m: nat, i: nat, b: seq<Vec>, n: nat, j: nat, average: bool)
    requires a != [] && |a| == |b| && Widths(a, m) && Widths(b, n) && i < m && j < n
    requires forall p: nat | p < |a| :: a[p][i] == b[p][j]
    ensures ReducedEntry(a, m, average, i) == ReducedEntry(b, n, average, j)
  {
    SumEqual(|a|, Entry(a, m, i), Entry(b, n, j));
  }

  /** Rank r receives chunk r of the reduction. */
  function ReduceScatter(inputs: seq<Vec>, chunk: nat, average: bool): (out: seq<Vec>)
    requires inputs != [] && Chunked(inputs, chunk)
    ensures |out| == |inputs| && Widths(out, chunk)
    ensures forall r: nat, k: nat | r < |inputs| && k < chunk ::
        out[r][k] == ScatteredEntry(inputs, chunk, average, r, k)
  {
    seq(|inputs|, r requires 0 <= r < |inputs| =>
      seq(chunk, k requires 0 <= k < chunk => ScatteredEntry(inputs, chunk, average, r, k)))
  }

  function ScatteredEntry(inputs: seq<Vec>, chunk: nat, average: bool, r: nat, k: nat): real
    requires inputs != [] && Chunked(inputs, chunk) && r < |inputs| && k < chunk
  {
    InChunk(r, k, |inputs|, chunk);
    ReducedEntry(inputs, |inputs| * chunk, average, r * chunk + k)
  }

  // ----- reduce-scatter of gradients

  /** The ranks hold parameters of the same total size. */
  predicate SameTotal(ranks: seq<seq<Parameter>>, n: nat) {
    forall p | 0 <= p < |ranks| :: GradientShapes(ranks[p]) && |Gather(Gradients(ranks[p]))| == n
  }

  function Flats(ranks: seq<seq<Parameter>>, n: nat): (flats: seq<Vec>)
    requires ranks != [] && SameTotal(ranks, n)
    ensures |flats| == |ranks| && Chunked(flats, ShardSize(n, |ranks|))
    ensures forall p | 0 <= p < |ranks| :: flats[p] == PaddedFlat(Gradients(ranks[p]), |ranks|)
  {
    ShardsCover(n, |ranks|);
    seq(|ranks|, p requires 0 <= p < |ranks| => PaddedFlat(Gradients(ranks[p]), |ranks|))
  }

  /** What a reduce-scatter of the whole padded flat gradient gives the ranks. */
  function GradientShards(ranks: seq<seq<Parameter>>, n: nat, average: bool): (shards: seq<Vec>)
    requires ranks != [] && SameTotal(ranks, n)
    ensures |shards| == |ranks| && Widths(shards, ShardSize(n, |ranks|))
  {
    ReduceScatter(Flats(ranks, n), ShardSize(n, |ranks|), average)
  }

  /** Alone in the group, a rank keeps its own flat gradient. */
  lemma AloneReduces(ranks: seq<seq<Parameter>>, n: nat, average: bool, flat: Vec)
    requires |ranks| == 1 && SameTotal(ranks, n) && flat == PaddedFlat(Gradients(ranks[0]), 1)
    ensures GradientShards(ranks, n, average) == [flat]
  {
    var size, flats := ShardSize(n, 1), Flats(ranks, n);
    ShardsCover(n, 1);
    var shard := GradientShards(ranks, n, average)[0];
    forall k: nat | k < size ensures shard[k] == flat[k] {
      assert shard[k] == ScatteredEntry(flats, size, average, 0, k);
      assert SumTo(0, Entry(flats, size, k)) == 0.0;
      assert SumTo(1, Entry(flats, size, k)) == Entry(flats, size, k)(0);
    }
    assert shard == flat;
  }

  /** The one-shot form on all ranks: flatten, pad, reduce-scatter. */
  method ReduceScatterGradients(ranks: seq<seq<Parameter>>, n: nat, average: bool) returns (shards: seq<Vec>)
    requires ranks != [] && SameTotal(ranks, n)
    ensures shards == GradientShards(ranks, n, average)
  {
    var flats: seq<Vec> := [];
    ShardsCover(n, |ranks|);
    while |flats| < |ranks|
      invariant |flats| <= |ranks| && flats == Flats(ranks, n)[..|flats|]
    {
      var gradients := Gradients(ranks[|flats|]);
      var full := FlattenShard(gradients, 1, 0);
      AloneIsWhole(gradients, full.value);
      var flat := full.value.shard + Zeros(PaddedLength(n, |ranks|) - n);
      assert flat == PaddedFlat(gradients, |ranks|);
      flats := flats + [flat];
    }
    assert flats == Flats(ranks, n);
    if |ranks| == 1 {
      AloneReduces(ranks, n, average, flats[0]);
      return flats;
    }
    return ReduceScatter(flats, ShardSize(n, |ranks|), average);
  }

  lemma AloneIsWhole(tensors: seq<Vec>, s: FlatParameterShard)
    requires ShardOf(tensors, 1, 0, s)
    ensures s.shard == Gather(tensors)
  {
    var n := |Gather(tensors)|;
    ShardsCover(n, 1);
    assert PaddedFlat(tensors, 1) == Gather(tensors);
    assert s.shard == PaddedFlat(tensors, 1)[0..n];
  }

  // ----- bucket by bucket

  /** A rank's input to one bucket: the same stretch of every rank's shard. */
  ghost predicate BucketInput(flat: Vec, ranks: nat, size: nat, offset: nat, chunk: nat, segments: seq<Vec>) {
    && |flat| == ranks * size && offset + chunk <= size
    && forall r: nat | r < |segments| :: Segment(flat, r * size + offset, chunk, segments[r])
  }

  ghost predicate Segment(flat: Vec, begin: nat, chunk: nat, segment: Vec) {
    && |segment| == chunk && begin + chunk <= |flat|
    && forall k: nat | k < chunk :: segment[k] == flat[begin + k]
  }

  lemma FilledIsSegment(tensors: seq<Vec>, ranks: nat, begin: nat, out: Vec)
    requires ranks > 0 && FilledTo(Gather(tensors), begin, begin + |out|, out)
    requires begin + |out| <= PaddedLength(|Gather(tensors)|, ranks)
    ensures Segment(PaddedFlat(tensors, ranks), begin, |out|, out)
  {
  }

  method GradientBucket(parameters: seq<Parameter>, n: nat, ranks: nat, offset: nat, chunk: nat)
    returns (input: Vec, ghost segments: seq<Vec>)
    requires ranks > 0 && GradientShapes(parameters) && |Gather(Gradients(parameters))| == n
    requires offset + chunk <= ShardSize(n, ranks)
    ensures |segments| == ranks && input == Gather(segments)
    ensures BucketInput(PaddedFlat(Gradients(parameters), ranks), ranks, ShardSize(n, ranks), offset, chunk, segments)
  {
    var size := ShardSize(n, ranks);
    ShardsCover(n, ranks);
    var parts: seq<Vec> := [];
    while |parts| < ranks
      invariant |parts| <= ranks
      invariant BucketInput(PaddedFlat(Gradients(parameters), ranks), ranks, size, offset, chunk, parts)
    {
      ShardInside(n, ranks, |parts|);
      var begin := |parts| * size + offset;
      var segment := FlatGradientRangePadded(parameters, PaddedLength(n, ranks), begin, chunk, false);
      FilledIsSegment(Gradients(parameters), ranks, begin, segment.value);
      assert Segment(PaddedFlat(Gradients(parameters), ranks), |parts| * size + offset, chunk, segment.value);
      parts := parts + [segment.value];
    }
    return Gather(parts), parts;
  }

  ghost predicate BucketInputs(flats: seq<Vec>, size: nat, offset: nat, chunk: nat, segments: seq<seq<Vec>>,
                               inputs: seq<Vec>) {
    && |segments| == |inputs| <= |flats|
    && forall p: nat | p < |inputs| ::
         |segments[p]| == |flats| && BucketInput(flats[p], |flats|, size, offset, chunk, segments[p])
           && inputs[p] == Gather(segments[p])
  }

  lemma BucketEntry(flat: Vec, ranks: nat, size: nat, offset: nat, chunk: nat, segments: seq<Vec>, r: nat, k: nat,
                    at: nat, from: nat)
    requires |segments| == ranks && BucketInput(flat, ranks, size, offset, chunk, segments) && r < ranks && k < chunk
    requires at == r * chunk + k && from == r * size + (offset + k)
    ensures at < |Gather(segments)| && from < |flat| && Gather(segments)[at] == flat[from]
  {
    hide Gather;
    forall q: nat | q < ranks
      ensures |segments[q]| == chunk
    {
      assert Segment(flat, q * size + offset, chunk, segments[q]);
    }
    GatherAt(segments, chunk, r, k);
    assert Segment(flat, r * size + offset, chunk, segments[r]);
  }

  lemma BucketsChunked(flats: seq<Vec>, size: nat, offset: nat, chunk: nat, segments: seq<seq<Vec>>, inputs: seq<Vec>)
    requires |inputs| == |flats| && BucketInputs(flats, size, offset, chunk, segments, inputs)
    ensures Chunked(inputs, chunk)
  {
    forall p: nat | p < |inputs| ensures |inputs[p]| == |inputs| * chunk {
      assert BucketInput(flats[p], |flats|, size, offset, chunk, segments[p]);
      forall q: nat | q < |flats| ensures |segments[p][q]| == chunk {
        assert Segment(flats[p], q * size + offset, chunk, segments[p][q]);
      }
      GatherLength(segments[p], chunk);
    }
  }

  /** A bucket reduces to its stretch of the one-shot result. */
  lemma BucketReduces(flats: seq<Vec>, size: nat, offset: nat, chunk: nat, segments: seq<seq<Vec>>, inputs: seq<Vec>,
                      average: bool, r: nat, k: nat)
    requires flats != [] && Chunked(flats, size) && |inputs| == |flats|
    requires BucketInputs(flats, size, offset, chunk, segments, inputs)
    requires offset + chunk <= size && r < |flats| && k < chunk && Chunked(inputs, chunk)
    ensures ScatteredEntry(inputs, chunk, average, r, k) == ScatteredEntry(flats, size, average, r, offset + k)
  {
    InChunk(r, k, |flats|, chunk);
    InChunk(r, offset + k, |flats|, size);
    forall p: nat | p < |inputs| ensures inputs[p][r * chunk + k] == flats[p][r * size + (offset + k)] {
      BucketEntry(flats[p], |flats|, size, offset, chunk, segments[p], r, k, r * chunk + k, r * size + (offset + k));
    }
    ReducedAlike(inputs, |inputs| * chunk, r * chunk + k, flats, |flats| * size, r * size + (offset + k), average);
  }

  /** The first `offset` elements of every shard. */
  ghost predicate FilledUpTo(target: seq<Vec>, offset: nat, shards: seq<Vec>) {
    |shards| == |target| && forall r: nat | r < |shards| :: offset <= |target[r]| && shards[r] == target[r][..offset]
  }

  function Extend(shards: seq<Vec>, pieces: seq<Vec>): (r: seq<Vec>)
    requires |shards| == |pieces|
    ensures |r| == |shards| && forall i | 0 <= i < |r| :: r[i] == shards[i] + pieces[i]
  {
    seq(|shards|, i requires 0 <= i < |shards| => shards[i] + pieces[i])
  }

  lemma BucketExtends(flats: seq<Vec>, size: nat, offset: nat, chunk: nat, segments: seq<seq<Vec>>, inputs: seq<Vec>,
                      average: bool, shards: seq<Vec>)
    requires flats != [] && Chunked(flats, size) && |inputs| == |flats|
    requires BucketInputs(flats, size, offset, chunk, segments, inputs)
    requires offset + chunk <= size && Chunked(inputs, chunk)
    requires FilledUpTo(ReduceScatter(flats, size, average), offset, shards)
    ensures FilledUpTo(ReduceScatter(flats, size, average), offset + chunk,
        Extend(shards, ReduceScatter(inputs, chunk, average)))
  {
    var target, reduced := ReduceScatter(flats, size, average), ReduceScatter(inputs, chunk, average);
    forall r: nat | r < |shards| ensures shards[r] + reduced[r] == target[r][..offset + chunk] {
      forall k: nat | k < chunk ensures reduced[r][k] == target[r][offset + k] {
        BucketReduces(flats, size, offset, chunk, segments, inputs, average, r, k);
      }
      assert target[r][..offset + chunk] == target[r][..offset] + target[r][offset..offset + chunk];
    }
  }

  /** One bucket on all ranks, up to the collective. */
  method GradientBuckets(ranks: seq<seq<Parameter>>, n: nat, offset: nat, chunk: nat)
    returns (inputs: seq<Vec>, ghost segments: seq<seq<Vec>>)
    requires ranks != [] && SameTotal(ranks, n) && offset + chunk <= ShardSize(n, |ranks|)
    ensures |inputs| == |ranks| && BucketInputs(Flats(ranks, n), ShardSize(n, |ranks|), offset, chunk, segments, inputs)
  {
    inputs, segments := [], [];
    while |inputs| < |ranks|
      invariant |inputs| <= |ranks|
      invariant BucketInputs(Flats(ranks, n), ShardSize(n, |ranks|), offset, chunk, segments, inputs)
    {
      var input, parts := GradientBucket(ranks[|inputs|], n, |ranks|, offset, chunk);
      inputs, segments := inputs + [input], segments + [parts];
    }
  }

  /** One bucket: every rank's shard grows by its reduced piece. */
  method ReduceBucket(ranks: seq<seq<Parameter>>, n: nat, average: bool, offset: nat, chunk: nat, shards: seq<Vec>)
    returns (next: seq<Vec>)
    requires ranks != [] && SameTotal(ranks, n) && offset + chunk <= ShardSize(n, |ranks|)
    requires FilledUpTo(GradientShards(ranks, n, average), offset, shards)
    ensures FilledUpTo(GradientShards(ranks, n, average), offset + chunk, next)
  {
    var inputs, segments := GradientBuckets(ranks, n, offset, chunk);
    BucketsChunked(Flats(ranks, n), ShardSize(n, |ranks|), offset, chunk, segments, inputs);
    BucketExtends(Flats(ranks, n), ShardSize(n, |ranks|), offset, chunk, segments, inputs, average, shards);
    next := Extend(shards, ReduceScatter(inputs, chunk, average));
  }

  /** A single rank takes its own padded gradients. */
  method ReduceAlone(ranks: seq<seq<Parameter>>, n: nat, average: bool) returns (shards: seq<Vec>)
    requires |ranks| == 1 && SameTotal(ranks, n)
    ensures shards == GradientShards(ranks, n, average)
  {
    ShardsCover(n, 1);
    var whole := FlatGradientRangePadded(ranks[0], PaddedLength(n, 1), 0, ShardSize(n, 1), false);
    FilledIsSegment(Gradients(ranks[0]), 1, 0, whole.value);
    assert whole.value == PaddedFlat(Gradients(ranks[0]), 1);
    AloneReduces(ranks, n, average, whole.value);
    shards := [whole.value];
  }

  /** Bucketing never changes the reduced shards, whatever the bucket size. */
  method ReduceScatterGradientsBucketed(ranks: seq<seq<Parameter>>, n: nat, average: bool, bucketNumel: int)
    returns (r: Result<seq<Vec>>)
    requires ranks != [] && SameTotal(ranks, n)
    ensures r.Ok? <==> bucketNumel > 0
    ensures r.Ok? ==> r.value == GradientShards(ranks, n, average)
  {
    if bucketNumel <= 0 {
      return Err("bucket_numel must be positive");
    }
    if |ranks| == 1 {
      var alone := ReduceAlone(ranks, n, average);
      return Ok(alone);
    }
    var size := ShardSize(n, |ranks|);
    var shardBucket := Max(1, bucketNumel / |ranks|);
    var shards: seq<Vec> := seq(|ranks|, _ => []);
    var offset := 0;
    while offset < size
      invariant 0 <= offset <= size && FilledUpTo(GradientShards(ranks, n, average), offset, shards)
      decreases size - offset
    {
      var chunk := Min(shardBucket, size - offset);
      shards := ReduceBucket(ranks, n, average, offset, chunk, shards);
      offset := offset + chunk;
    }
    AllFilled(GradientShards(ranks, n, average), size, shards);
    return Ok(shards);
  }

  lemma AllFilled(target: seq<Vec>, size: nat, shards: seq<Vec>)
    requires Widths(target, size) && FilledUpTo(target, size, shards)
    ensures shards == target
  {
    forall r | 0 <= r < |shards| ensures shards[r] == target[r] {
      assert target[r][..size] == target[r];
    }
  }
}

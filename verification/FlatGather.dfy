/** All-gather of parameter shards into one rank's parameters, in one piece and bucket by bucket. */
module FlatGather {
  import opened Chunks
  import opened FlatParameters
  import opened FlatShards
  import opened Results
  import opened Sequences
  import opened Vectors

  /** Entry (r, k) of the flat parameters is the gathered one if it is among the first `offset` of its
      shard, or among `chunk` more of the first `rank` shards; else it is what it was before. */
  ghost predicate EntryIs(flat: Vec, before: Vec, shards: seq<Vec>, size: nat, offset: nat, chunk: nat, rank: nat,
                          r: nat, k: nat)
    requires r < |shards| && k < |shards[r]| && |flat| == |before|
  {
    r * size + k < |flat| ==>
      flat[r * size + k] == if k < offset || (r < rank && k < offset + chunk) then shards[r][k]
        else before[r * size + k]
  }

  ghost predicate WrittenTo(flat: Vec, before: Vec, shards: seq<Vec>, size: nat, offset: nat, chunk: nat, rank: nat)
    requires Widths(shards, size)
  {
    && |flat| == |before|
    && forall r: nat, k: nat | r < |shards| && k < size ::
      EntryIs(flat, before, shards, size, offset, chunk, rank, r, k)
  }

  lemma NothingWritten(before: Vec, shards: seq<Vec>, size: nat, chunk: nat)
    requires Widths(shards, size)
    ensures WrittenTo(before, before, shards, size, 0, chunk, 0)
  {
  }

  /** Two positions with the same shard window are in the same shard. */
  lemma SameWindow(r: nat, k: nat, rank: nat, offset: nat, chunk: nat, size: nat)
    requires k < size && offset + chunk <= size
    ensures rank * size + offset <= r * size + k < rank * size + offset + chunk
        <==> r == rank && offset <= k < offset + chunk
  {
    if r < rank { MulAtLeast(rank, r + 1, size); }
    if rank < r { MulAtLeast(r, rank + 1, size); }
  }

  lemma SliceWritten(flat: Vec, before: Vec, shards: seq<Vec>, size: nat, offset: nat, chunk: nat, rank: nat,
                     begin: nat)
    requires Widths(shards, size) && rank < |shards| && offset + chunk <= size && begin == rank * size + offset
    requires WrittenTo(flat, before, shards, size, offset, chunk, rank)
    ensures WrittenTo(Patch(flat, begin, shards[rank][offset..offset + chunk], |flat|), before, shards, size, offset,
        chunk, rank + 1)
  {
    var next, after := Patch(flat, begin, shards[rank][offset..offset + chunk], |flat|), rank + 1;
    forall r: nat, k: nat | r < |shards| && k < size
      ensures EntryIs(next, before, shards, size, offset, chunk, after, r, k)
    {
      assert EntryIs(flat, before, shards, size, offset, chunk, rank, r, k);
      if r * size + k < |flat| {
        SliceEntry(flat, before, shards, size, offset, chunk, rank, begin, r, k, r * size + k);
      }
    }
  }

  lemma SliceEntry(flat: Vec, before: Vec, shards: seq<Vec>, size: nat, offset: nat, chunk: nat, rank: nat, begin: nat,
                   r: nat, k: nat, p: nat)
    requires Widths(shards, size) && rank < |shards| && offset + chunk <= size && begin == rank * size + offset
    requires r < |shards| && k < size && p == r * size + k && p < |flat|
    ensures Patch(flat, begin, shards[rank][offset..offset + chunk], |flat|)[p]
        == if r == rank && offset <= k < offset + chunk then shards[r][k] else flat[p]
  {
    SameWindow(r, k, rank, offset, chunk, size);
  }

  lemma NextBucket(flat: Vec, before: Vec, shards: seq<Vec>, size: nat, offset: nat, chunk: nat, next: nat)
    requires Widths(shards, size) && WrittenTo(flat, before, shards, size, offset, chunk, |shards|)
    ensures WrittenTo(flat, before, shards, size, offset + chunk, next, 0)
  {
    var sum := offset + chunk;
    forall r: nat, k: nat | r < |shards| && k < size ensures EntryIs(flat, before, shards, size, sum, next, 0, r, k) {
      assert EntryIs(flat, before, shards, size, offset, chunk, |shards|, r, k);
    }
  }

  lemma AllWritten(flat: Vec, before: Vec, shards: seq<Vec>, size: nat, chunk: nat)
    requires Widths(shards, size) && WrittenTo(flat, before, shards, size, size, chunk, 0) && |flat| <= |shards| * size
    ensures |Gather(shards)| == |shards| * size && flat == Gather(shards)[..|flat|]
  {
    GatherLength(shards, size);
    forall p: nat | p < |flat| ensures flat[p] == Gather(shards)[p] {
      var r, k := Locate(p, size, |shards|);
      GatherAt(shards, size, r, k);
      assert EntryIs(flat, before, shards, size, size, chunk, 0, r, k);
    }
  }

  /** The shards of a group that flattened `n` parameters. */
  predicate GroupShards(shards: seq<Vec>, n: nat) {
    shards != [] && Widths(shards, ShardSize(n, |shards|))
  }

  /** What this rank knows of its own shard. */
  ghost predicate OwnShard(tensors: seq<Vec>, shards: seq<Vec>, rank: nat, own: FlatParameterShard) {
    && GroupShards(shards, |Gather(tensors)|) && rank < |shards| && own.shard == shards[rank]
    && own.originalNumel == |Gather(tensors)| && own.paddedNumel == PaddedLength(own.originalNumel, |shards|)
    && own.shardBegin == rank * ShardSize(own.originalNumel, |shards|) && own.shardEnd == own.shardBegin + |own.shard|
    && RangesOf(tensors, own.shardBegin, ValidNumel(own.originalNumel, own.shardBegin, own.shardEnd), own.ranges)
  }

  /** Alone in the group: the rank's own ranges are all there is to write. */
  method ApplyAlone(shards: seq<Vec>, own: FlatParameterShard, parameters: ParameterList)
    requires |shards| == 1 && OwnShard(parameters.tensors, shards, 0, own)
    modifies parameters
    ensures SameShapes(parameters.tensors, old(parameters.tensors))
    ensures Gather(parameters.tensors) == Gather(shards)
  {
    ghost var flat := Gather(parameters.tensors);
    ShardsCover(|flat|, 1);
    OneShard(shards);
    var done := parameters.ApplyShard(own);
    assert Gather(parameters.tensors) == Patch(flat, 0, shards[0], |flat|);
  }

  lemma OneShard(shards: seq<Vec>)
    requires |shards| == 1
    ensures Gather(shards) == shards[0]
  {
    assert Gather(shards[..0]) == [];
  }

  /** One-shot: gather all shards and write them. */
  method AllGatherApply(shards: seq<Vec>, rank: nat, own: FlatParameterShard, parameters: ParameterList)
    requires OwnShard(parameters.tensors, shards, rank, own)
    modifies parameters
    ensures SameShapes(parameters.tensors, old(parameters.tensors))
    ensures |Gather(parameters.tensors)| <= |Gather(shards)|
    ensures Gather(parameters.tensors) == Gather(shards)[..|Gather(parameters.tensors)|]
  {
    if |shards| == 1 {
      ApplyAlone(shards, own, parameters);
      return;
    }
    var gathered := Gather(shards);
    GatherLength(shards, ShardSize(own.originalNumel, |shards|));
    ShardsCover(own.originalNumel, |shards|);
    var done := parameters.ApplyFull(gathered, own.originalNumel);
  }

  /** Bucket by bucket: gather the same stretch of all shards and write every rank's slice of it. */
  method AllGatherApplyBucketed(shards: seq<Vec>, rank: nat, own: FlatParameterShard, parameters: ParameterList,
                                bucketNumel: int) returns (r: Result<()>)
    requires OwnShard(parameters.tensors, shards, rank, own)
    modifies parameters
    ensures r.Ok? <==> bucketNumel > 0
    ensures r.Err? ==> parameters.tensors == old(parameters.tensors)
    ensures SameShapes(parameters.tensors, old(parameters.tensors))
    ensures r.Ok? ==> |Gather(parameters.tensors)| <= |Gather(shards)|
    ensures r.Ok? ==> Gather(parameters.tensors) == Gather(shards)[..|Gather(parameters.tensors)|]
  {
    if bucketNumel <= 0 {
      return Err("bucket_numel must be positive");
    }
    if |shards| == 1 {
      ApplyAlone(shards, own, parameters);
      return Ok(());
    }
    var size := ShardSize(own.originalNumel, |shards|);
    var shardBucket := Max(1, bucketNumel / |shards|);
    ghost var before := Gather(parameters.tensors);
    NothingWritten(before, shards, size, 0);
    var offset: nat := 0;
    while offset < size
      invariant offset <= size && SameShapes(parameters.tensors, old(parameters.tensors))
      invariant WrittenTo(Gather(parameters.tensors), before, shards, size, offset, 0, 0)
      decreases size - offset
    {
      var chunk := Min(shardBucket, size - offset);
      ApplyBucket(shards, size, own.originalNumel, offset, chunk, parameters, before);
      offset := offset + chunk;
    }
    ShardsCover(own.originalNumel, |shards|);
    AllWritten(Gather(parameters.tensors), before, shards, size, 0);
    return Ok(());
  }

  /** The same stretch of every shard. */
  function Pieces(shards: seq<Vec>, size: nat, offset: nat, chunk: nat): (pieces: seq<Vec>)
    requires Widths(shards, size) && offset + chunk <= size
    ensures |pieces| == |shards| && Widths(pieces, chunk)
    ensures forall q | 0 <= q < |pieces| :: pieces[q] == shards[q][offset..offset + chunk]
  {
    seq(|shards|, q requires 0 <= q < |shards| => shards[q][offset..offset + chunk])
  }

  /** One rank's slice of the gathered bucket. */
  method ApplyPiece(shards: seq<Vec>, size: nat, originalNumel: nat, offset: nat, chunk: nat, rank: nat, gathered: Vec,
                    parameters: ParameterList, ghost before: Vec)
    requires Widths(shards, size) && offset + chunk <= size && rank < |shards|
    requires gathered == Gather(Pieces(shards, size, offset, chunk))
    requires |before| == originalNumel
    requires WrittenTo(Gather(parameters.tensors), before, shards, size, offset, chunk, rank)
    modifies parameters
    ensures SameShapes(parameters.tensors, old(parameters.tensors))
    ensures WrittenTo(Gather(parameters.tensors), before, shards, size, offset, chunk, rank + 1)
  {
    ghost var flat := Gather(parameters.tensors);
    PieceOf(Pieces(shards, size, offset, chunk), chunk, rank);
    SliceWritten(flat, before, shards, size, offset, chunk, rank, rank * size + offset);
    parameters.ApplyRange(gathered[rank * chunk..rank * chunk + chunk], rank * size + offset, originalNumel);
  }

  /** The gathered bucket, rank by rank. */
  method ApplyBucket(shards: seq<Vec>, size: nat, originalNumel: nat, offset: nat, chunk: nat,
                     parameters: ParameterList, ghost before: Vec)
    requires Widths(shards, size) && offset + chunk <= size && originalNumel == |before|
    requires WrittenTo(Gather(parameters.tensors), before, shards, size, offset, 0, 0)
    modifies parameters
    ensures SameShapes(parameters.tensors, old(parameters.tensors))
    ensures WrittenTo(Gather(parameters.tensors), before, shards, size, offset + chunk, 0, 0)
  {
    var gathered := Gather(Pieces(shards, size, offset, chunk));
    GatherLength(Pieces(shards, size, offset, chunk), chunk);
    StartBucket(Gather(parameters.tensors), before, shards, size, offset, chunk);
    var rank := 0;
    while rank < |shards|
      invariant 0 <= rank <= |shards| && SameShapes(parameters.tensors, old(parameters.tensors))
      invariant WrittenTo(Gather(parameters.tensors), before, shards, size, offset, chunk, rank)
    {
      ApplyPiece(shards, size, originalNumel, offset, chunk, rank, gathered, parameters, before);
      rank := rank + 1;
    }
    NextBucket(Gather(parameters.tensors), before, shards, size, offset, chunk, 0);
  }

  lemma StartBucket(flat: Vec, before: Vec, shards: seq<Vec>, size: nat, offset: nat, chunk: nat)
    requires Widths(shards, size) && WrittenTo(flat, before, shards, size, offset, 0, 0)
    ensures WrittenTo(flat, before, shards, size, offset, chunk, 0)
  {
    forall r: nat, k: nat | r < |shards| && k < size
      ensures EntryIs(flat, before, shards, size, offset, chunk, 0, r, k) {
      assert EntryIs(flat, before, shards, size, offset, 0, 0, r, k);
    }
  }

  lemma PieceOf(pieces: seq<Vec>, chunk: nat, rank: nat)
    requires rank < |pieces| && forall q | 0 <= q < |pieces| :: |pieces[q]| == chunk
    ensures |Gather(pieces)| == |pieces| * chunk && rank * chunk + chunk <= |pieces| * chunk
    ensures Gather(pieces)[rank * chunk..rank * chunk + chunk] == pieces[rank]
  {
    hide Gather;
    GatherLength(pieces, chunk);
    MulAtLeast(|pieces|, rank + 1, chunk);
    var all, begin := Gather(pieces), rank * chunk;
    forall k: nat | k < chunk ensures all[begin + k] == pieces[rank][k] { GatherAt(pieces, chunk, rank, k); }
    SliceIs(all, begin, pieces[rank]);
  }

  // ----- there and back

  /** flatten_parameters_for_rank on every rank. */
  method FlattenAll(tensors: seq<Vec>, ranks: nat) returns (shards: seq<FlatParameterShard>)
    requires ranks > 0
    ensures |shards| == ranks && AllShards(tensors, shards)
  {
    shards := [];
    for r := 0 to ranks
      invariant |shards| == r && forall q: nat | q < r :: ShardOf(tensors, ranks, q, shards[q])
    {
      var shard := FlattenShard(tensors, ranks, r);
      shards := shards + [shard.value];
    }
  }

  /** Flatten on all ranks, gather and apply: parameters of the same shapes, whatever they held, end as the
      flattened ones, on every rank and for every bucket size. */
  method FlattenGatherApply(tensors: seq<Vec>, ranks: nat, rank: nat, parameters: ParameterList, bucketNumel: int)
    requires rank < ranks && SameShapes(parameters.tensors, tensors)
    modifies parameters
    ensures parameters.tensors == tensors
  {
    var shards := FlattenAll(tensors, ranks);
    OwnOfShard(tensors, parameters.tensors, shards, rank);
    if bucketNumel > 0 {
      var done := AllGatherApplyBucketed(ShardData(shards), rank, shards[rank], parameters, bucketNumel);
    } else {
      AllGatherApply(ShardData(shards), rank, shards[rank], parameters);
    }
    FlattenThenApply(tensors, shards, parameters.tensors);
  }

  /** A rank's shard of some parameters has the ranges of all parameters of the same shapes. */
  lemma OwnOfShard(tensors: seq<Vec>, others: seq<Vec>, shards: seq<FlatParameterShard>, rank: nat)
    requires rank < |shards| && AllShards(tensors, shards) && SameShapes(others, tensors)
    ensures OwnShard(others, ShardData(shards), rank, shards[rank])
  {
    ShapesTotal(others, tensors);
    forall r | 0 <= r < |shards| ensures |ShardData(shards)[r]| == ShardSize(|Gather(tensors)|, |shards|) {
      assert ShardOf(tensors, |shards|, r, shards[r]);
    }
    var own := shards[rank];
    assert ShardOf(tensors, |shards|, rank, own);
    SameRanges(tensors, others, own.shardBegin, ValidNumel(own.originalNumel, own.shardBegin, own.shardEnd),
      own.ranges);
  }
}

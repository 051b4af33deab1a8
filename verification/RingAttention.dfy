/** Context-parallel attention on all ranks. */
module RingAttention {
  import opened Chunks
  import opened Sequences
  import opened Sums
  import opened StreamingAttention
  import Vectors
  import opened RingExchange

  // ----- padded shards

  datatype ShardRange = ShardRange(begin: nat, end: nat, paddedEnd: nat)

  function SequenceRange(length: nat, rank: nat, size: nat): ShardRange
    requires rank < size
  {
    RangeAt(length, rank * ShardSize(length, size), ShardSize(length, size))
  }

  function RangeAt(length: nat, paddedBegin: nat, shard: nat): ShardRange {
    var paddedEnd := paddedBegin + shard;
    ShardRange(if paddedBegin <= length then paddedBegin else length, if paddedEnd <= length then paddedEnd
      else length, paddedEnd)
  }

  function PaddedSlice<T>(input: seq<T>, rank: nat, size: nat, pad: T): (slice: seq<T>)
    requires rank < size
  {
    Filled(input, SequenceRange(|input|, rank, size), rank * ShardSize(|input|, size), ShardSize(|input|, size), pad)
  }

  /** A shard full of the pad value, its valid prefix overwritten from the input. */
  function Filled<T>(input: seq<T>, range: ShardRange, paddedBegin: nat, shard: nat, pad: T): (slice: seq<T>)
    requires range == RangeAt(|input|, paddedBegin, shard)
    ensures |slice| == shard
    ensures forall j: nat | j < shard :: slice[j] == if paddedBegin + j < |input| then input[paddedBegin + j] else pad
  {
    input[range.begin..range.end] + seq(shard - (range.end - range.begin), _ => pad)
  }

  /** Slicing on all ranks and gathering is padding: cut to the original length it is the input. */
  lemma GatherOfSlices<T>(input: seq<T>, size: nat, pad: T, shards: seq<seq<T>>, p: nat)
    requires size > 0 && |shards| == size && forall r: nat | r < size :: shards[r] == PaddedSlice(input, r, size, pad)
    requires p < |input|
    ensures p < |Gather(shards)| && Gather(shards)[p] == input[p]
  {
    var shard := ShardSize(|input|, size);
    ShardsCover(|input|, size);
    var r, i := Locate(p, shard, size);
    GatherAt(shards, shard, r, i);
  }

  // ----- the attention of all ranks

  /** The blocks rank `r` streams over: hop i brings the shard of the schedule's i-th kv rank. */
  function RingBlocks(keys: seq<Tensor>, values: seq<Tensor>, shard: nat, r: nat): (blocks: seq<Block>)
    requires r < |keys| == |values|
    ensures |blocks| == |keys| && forall i | 0 <= i < |blocks| :: blocks[i].begin >= 0
    ensures forall i | 0 <= i < |keys| ::
              var k := KvIndex(|keys|, r, i); blocks[i] == Block(keys[k], values[k], k * shard)
  {
    seq(|keys|, i requires 0 <= i < |keys| =>
      var k := KvIndex(|keys|, r, i); Block(keys[k], values[k], k * shard))
  }

  predicate Shards(shards: seq<Tensor>, shard: nat, width: nat) {
    forall r | 0 <= r < |shards| :: shards[r].Valid() && shards[r].width == width && |shards[r].rows| == shard
  }

  /** `rows` is what rank `r` computes from the blocks the ring brings it. */
  ghost predicate Attended(exp: real -> real, query: Tensor, keys: seq<Tensor>, values: seq<Tensor>, shard: nat, r: nat,
                           originalLength: nat, scale: real, rows: seq<Row>, width: nat)
    requires r < |keys| == |values|
  {
    && query.Valid() && |rows| == |query.rows| == shard
    && BlocksOk(RingBlocks(keys, values, shard, r), query.width, width)
    && forall i: nat | i < shard ::
         rows[i] == OutputRow(exp, query, i, RingBlocks(keys, values, shard, r), r * shard, originalLength, scale,
           width)
  }

  /** Exchange keys and values round the ring, then attend on every rank. */
  method RingAttend(exp: real -> real, group: seq<int>, queries: seq<Tensor>, keys: seq<Tensor>, values: seq<Tensor>,
                    shard: nat, keyWidth: nat, valueWidth: nat, originalLength: nat, scale: real)
    returns (outputs: seq<Tensor>)
    requires Group(group) && 0 < |group| == |queries| == |keys| == |values|
    requires Shards(queries, shard, keyWidth) && Shards(keys, shard, keyWidth) && Shards(values, shard, valueWidth)
    ensures |outputs| == |group| && Shards(outputs, shard, valueWidth)
    ensures forall r | 0 <= r < |group| ::
        Attended(exp, queries[r], keys, values, shard, r, originalLength, scale, outputs[r].rows, valueWidth)
  {
    var size := |group|;
    var local: seq<(Tensor, Tensor)> := seq(size, r requires 0 <= r < size => (keys[r], values[r]));
    var ring: seq<seq<(Tensor, Tensor)>> := RingForward(local);
    outputs := [];
    while |outputs| < size
      invariant |outputs| <= size && Shards(outputs, shard, valueWidth)
      invariant forall r | 0 <= r < |outputs| ::
                  Attended(exp, queries[r], keys, values, shard, r, originalLength, scale, outputs[r].rows, valueWidth)
    {
      var rank := |outputs|;
      var schedule := RingSchedule(group, group[rank]);
      var blocks: seq<Block> := [];
      while |blocks| < size
        invariant |blocks| <= size && blocks == RingBlocks(keys, values, shard, rank)[..|blocks|]
      {
        var i := |blocks|;
        assert schedule.value[i] == ScheduleStep(group, rank, i);
        var owner := GroupIndex(group, schedule.value[i].kvRank);
        assert owner.value == KvIndex(size, rank, i);
        blocks := blocks + [Block(ring[rank][i].0, ring[rank][i].1, owner.value * shard)];
      }
      assert blocks == RingBlocks(keys, values, shard, rank);
      RingBlocksOk(keys, values, shard, rank, keyWidth, valueWidth);
      var out := StreamingBlocks(exp, queries[rank], blocks, rank * shard, originalLength, scale);
      outputs := outputs + [out.value];
    }
  }

  lemma RingBlocksOk(keys: seq<Tensor>, values: seq<Tensor>, shard: nat, r: nat, keyWidth: nat, valueWidth: nat)
    requires r < |keys| == |values| && Shards(keys, shard, keyWidth) && Shards(values, shard, valueWidth)
    ensures BlocksOk(RingBlocks(keys, values, shard, r), keyWidth, valueWidth)
  {
  }

  // ----- the ring order tiles the sequence

  /** The positions of a block that lie in a sequence of `length`. */
  function Shown(b: Block, length: nat): seq<nat>
    requires b.begin >= 0
  {
    Visible(b.begin, ValidKeys(b, length), length)
  }

  /** If only block `hop` shows position `p`, it has been seen after `n` blocks exactly when hop < n. */
  lemma {:induction false} SeenOnce(blocks: seq<Block>, n: nat, length: nat, hop: nat, p: nat)
    requires n <= |blocks| && forall i | 0 <= i < |blocks| :: blocks[i].begin >= 0
    requires forall i: nat | i < |blocks| :: Count(Shown(blocks[i], length), p) == if i == hop then 1 else 0
    ensures Count(SeenAfter(blocks, n, length, length), p) == if hop < n then 1 else 0
  {
    if n > 0 {
      SeenOnce(blocks, n - 1, length, hop, p);
      CountConcat(SeenAfter(blocks, n - 1, length, length), Shown(blocks[n - 1], length), p);
    }
  }

  lemma HopCount(keys: seq<Tensor>, values: seq<Tensor>, shard: nat, width: nat, r: nat, length: nat, hop: nat, k: nat,
                 i: nat)
    requires r < |keys| == |values| && hop < |keys| && Shards(keys, shard, width) && k < |keys| && i < shard
    ensures Count(Shown(RingBlocks(keys, values, shard, r)[hop], length), k * shard + i)
         == if k * shard + i < length && KvIndex(|keys|, r, k) == hop then 1 else 0
  {
    var b := RingBlocks(keys, values, shard, r)[hop];
    var owner := KvIndex(|keys|, r, hop);
    assert (owner == k) == (KvIndex(|keys|, r, k) == hop) by {
      KvIndexInvolution(|keys|, r, hop);
      KvIndexInvolution(|keys|, r, k);
    }
    ShardCount(owner, k, shard, i, length);
  }

  lemma ShardCount(owner: nat, k: nat, shard: nat, i: nat, length: nat)
    requires i < shard
    ensures Count(Visible(owner * shard, Clamp(length - owner * shard, 0, shard), length), k * shard + i)
         == if k * shard + i < length && owner == k then 1 else 0
  {
    var begin, p := owner * shard, k * shard + i;
    SameShard(owner, k, shard, i);
    VisibleCount(begin, Clamp(length - begin, 0, shard), length, p);
  }

  lemma SameShard(a: nat, k: nat, shard: nat, i: nat)
    requires i < shard
    ensures (a * shard <= k * shard + i < a * shard + shard) <==> a == k
  {
    if a < k { assert (a + 1) * shard <= k * shard; }
    if k < a { assert (k + 1) * shard <= a * shard; }
  }

  /** Whatever rank looks, the ring's blocks hold every position of the sequence exactly once. */
  lemma RingTiles(keys: seq<Tensor>, values: seq<Tensor>, shard: nat, width: nat, r: nat, length: nat)
    requires r < |keys| == |values| && Shards(keys, shard, width) && length <= shard * |keys|
    ensures Tile(RingBlocks(keys, values, shard, r), length)
  {
    var blocks := RingBlocks(keys, values, shard, r);
    forall p: nat ensures Count(SeenAfter(blocks, |blocks|, length, length), p) == if p < length then 1 else 0 {
      RingHolds(keys, values, shard, width, r, length, p);
    }
  }

  lemma RingHolds(keys: seq<Tensor>, values: seq<Tensor>, shard: nat, width: nat, r: nat, length: nat, p: nat)
    requires r < |keys| == |values| && Shards(keys, shard, width) && length <= shard * |keys|
    ensures Count(SeenAfter(RingBlocks(keys, values, shard, r), |keys|, length, length), p) == if p < length then 1
        else 0
  {
    if p < length {
      var k, i := Locate(p, shard, |keys|);
      RingHoldsInside(keys, values, shard, width, r, length, k, i, p);
    } else {
      OutsideShown(keys, values, shard, r, length, p);
      SeenOnce(RingBlocks(keys, values, shard, r), |keys|, length, |keys|, p);
    }
  }

  lemma RingHoldsInside(keys: seq<Tensor>, values: seq<Tensor>, shard: nat, width: nat, r: nat, length: nat, k: nat,
                        i: nat, p: nat)
    requires r < |keys| == |values| && Shards(keys, shard, width) && k < |keys| && i < shard && p == k * shard + i
    requires p < length
    ensures Count(SeenAfter(RingBlocks(keys, values, shard, r), |keys|, length, length), p) == 1
  {
    InsideShown(keys, values, shard, width, r, length, k, i, p);
    SeenOnce(RingBlocks(keys, values, shard, r), |keys|, length, KvIndex(|keys|, r, k), p);
  }

  lemma InsideShown(keys: seq<Tensor>, values: seq<Tensor>, shard: nat, width: nat, r: nat, length: nat, k: nat,
                    i: nat, p: nat)
    requires r < |keys| == |values| && Shards(keys, shard, width) && k < |keys| && i < shard && p == k * shard + i
    requires p < length
    ensures forall hop: nat | hop < |keys| ::
              Count(Shown(RingBlocks(keys, values, shard, r)[hop], length), p)
                == if hop == KvIndex(|keys|, r, k) then 1 else 0
  {
    forall hop: nat | hop < |keys|
      ensures Count(Shown(RingBlocks(keys, values, shard, r)[hop], length), p)
          == if hop == KvIndex(|keys|, r, k) then 1 else 0
    {
      HopCount(keys, values, shard, width, r, length, hop, k, i);
    }
  }

  lemma OutsideShown(keys: seq<Tensor>, values: seq<Tensor>, shard: nat, r: nat, length: nat, p: nat)
    requires r < |keys| == |values| && length <= p
    ensures forall hop: nat | hop < |keys| :: Count(Shown(RingBlocks(keys, values, shard, r)[hop], length), p) == 0
  {
    forall hop: nat | hop < |keys| ensures Count(Shown(RingBlocks(keys, values, shard, r)[hop], length), p) == 0 {
      var b := RingBlocks(keys, values, shard, r)[hop];
      VisibleCount(b.begin, ValidKeys(b, length), length, p);
    }
  }

  /** Row `i` of shard `r`, unless it is padding, is the row of the whole sequence at its position. */
  ghost predicate ShardRow(shards: seq<Tensor>, shard: nat, r: nat, i: nat, whole: Tensor)
    requires r < |shards|
  {
    r * shard + i < |whole.rows| ==> i < |shards[r].rows| && shards[r].rows[i] == whole.rows[r * shard + i]
  }

  ghost predicate ShardsOf(shards: seq<Tensor>, shard: nat, whole: Tensor) {
    forall r: nat, i: nat | r < |shards| && i < shard :: ShardRow(shards, shard, r, i, whole)
  }

  lemma RingCutsFrom(keys: seq<Tensor>, values: seq<Tensor>, shard: nat, r: nat, wholeKeys: Tensor, wholeValues: Tensor)
    requires r < |keys| == |values| && Shards(keys, shard, wholeKeys.width) && Shards(values, shard, wholeValues.width)
    requires |wholeKeys.rows| == |wholeValues.rows| && ShardsOf(keys, shard, wholeKeys)
    requires ShardsOf(values, shard, wholeValues)
    ensures CutFrom(RingBlocks(keys, values, shard, r), wholeKeys, wholeValues)
  {
    var blocks := RingBlocks(keys, values, shard, r);
    forall i, j: nat | 0 <= i < |blocks| && j < ValidKeys(blocks[i], |wholeKeys.rows|)
      ensures RowCut(blocks[i], j, wholeKeys, wholeValues)
    {
      BlockCutFrom(keys, values, shard, KvIndex(|keys|, r, i), j, wholeKeys, wholeValues);
    }
  }

  lemma BlockCutFrom(keys: seq<Tensor>, values: seq<Tensor>, shard: nat, k: nat, j: nat, wholeKeys: Tensor,
                     wholeValues: Tensor)
    requires k < |keys| == |values| && ShardsOf(keys, shard, wholeKeys) && ShardsOf(values, shard, wholeValues)
    requires |wholeKeys.rows| == |wholeValues.rows| && j < Clamp(|wholeKeys.rows| - k * shard, 0, shard)
    ensures RowCut(Block(keys[k], values[k], k * shard), j, wholeKeys, wholeValues)
  {
    var begin := k * shard;
    assert j < |keys[k].rows| && begin + j < |wholeKeys.rows| && keys[k].rows[j] == wholeKeys.rows[begin + j] by {
      RowCutFrom(keys, shard, k, j, wholeKeys);
    }
    assert j < |values[k].rows| && values[k].rows[j] == wholeValues.rows[begin + j] by {
      RowCutFrom(values, shard, k, j, wholeValues);
    }
  }

  lemma RowCutFrom(shards: seq<Tensor>, shard: nat, k: nat, j: nat, whole: Tensor)
    requires k < |shards| && j < Clamp(|whole.rows| - k * shard, 0, shard) && ShardsOf(shards, shard, whole)
    ensures j < |shards[k].rows| && k * shard + j < |whole.rows| && shards[k].rows[j] == whole.rows[k * shard + j]
  {
    assert ShardRow(shards, shard, k, j, whole);
  }

  /** Padding with zero rows and slicing on every rank gives shards of the whole tensor. */
  lemma PaddedSlicesAreShards(whole: Tensor, size: nat, shards: seq<Tensor>)
    requires size > 0 && whole.Valid() && |shards| == size
    requires forall r: nat | r < size ::
        shards[r] == Tensor(PaddedSlice(whole.rows, r, size, Vectors.Zeros(whole.width)), whole.width)
    ensures Shards(shards, ShardSize(|whole.rows|, size), whole.width)
    ensures ShardsOf(shards, ShardSize(|whole.rows|, size), whole)
    ensures |whole.rows| <= ShardSize(|whole.rows|, size) * size
  {
    ShardsCover(|whole.rows|, size);
  }

  /** Ring attention equals single-process attention: row p of the gathered outputs, for every position
      p of the sequence, is the causal softmax average over positions 0..p of the whole sequence. */
  lemma RingEqualsSingleProcess(exp: real -> real, queries: seq<Tensor>, keys: seq<Tensor>, values: seq<Tensor>,
                                shard: nat,
                                query: Tensor, wholeKeys: Tensor, wholeValues: Tensor, scale: real,
                                outputs: seq<seq<Row>>, p: nat, c: nat)
    requires IsExp(exp) && 0 < |queries| == |keys| == |values| == |outputs|
    requires query.Valid() && wholeKeys.Valid() && wholeValues.Valid() && query.width == wholeKeys.width
    requires |query.rows| == |wholeKeys.rows| == |wholeValues.rows| <= shard * |keys|
    requires Shards(queries, shard, query.width) && Shards(keys, shard, wholeKeys.width)
    requires Shards(values, shard, wholeValues.width)
    requires ShardsOf(queries, shard, query) && ShardsOf(keys, shard, wholeKeys) && ShardsOf(values, shard, wholeValues)
    requires forall r | 0 <= r < |outputs| ::
               Attended(exp, queries[r], keys, values, shard, r, |query.rows|, scale, outputs[r], wholeValues.width)
    requires p < |query.rows| && c < wholeValues.width
    ensures p < |Gather(outputs)| && |Gather(outputs)[p]| == wholeValues.width
    ensures SumTo(p + 1, Weight(exp, ScoreOf(query.rows[p], wholeKeys, scale), 0.0)) > 0.0
    ensures Gather(outputs)[p][c] == SoftmaxAverage(exp, p + 1, ScoreOf(query.rows[p], wholeKeys, scale),
        ValueOf(wholeValues), c)
  {
    var r, i := Locate(p, shard, |keys|);
    forall k | 0 <= k < |outputs| ensures |outputs[k]| == shard {
      assert Attended(exp, queries[k], keys, values, shard, k, |query.rows|, scale, outputs[k], wholeValues.width);
    }
    GatherAt(outputs, shard, r, i);
    RankEqualsSingleProcess(exp, queries[r], keys, values, shard, r, i, wholeKeys, wholeValues, scale, outputs[r], c);
    assert ShardRow(queries, shard, r, i, query);
  }

  lemma RankEqualsSingleProcess(exp: real -> real, query: Tensor, keys: seq<Tensor>, values: seq<Tensor>, shard: nat,
                                r: nat, i: nat,
                                wholeKeys: Tensor, wholeValues: Tensor, scale: real, rows: seq<Row>, c: nat)
    requires IsExp(exp) && r < |keys| == |values| && i < shard && c < wholeValues.width
    requires query.Valid() && wholeKeys.Valid() && wholeValues.Valid() && query.width == wholeKeys.width
    requires |wholeKeys.rows| == |wholeValues.rows| <= shard * |keys| && r * shard + i < |wholeKeys.rows|
    requires Shards(keys, shard, wholeKeys.width) && Shards(values, shard, wholeValues.width)
    requires ShardsOf(keys, shard, wholeKeys) && ShardsOf(values, shard, wholeValues)
    requires Attended(exp, query, keys, values, shard, r, |wholeKeys.rows|, scale, rows, wholeValues.width)
    ensures SumTo(r * shard + i + 1, Weight(exp, ScoreOf(query.rows[i], wholeKeys, scale), 0.0)) > 0.0
    ensures |rows[i]| == wholeValues.width
    ensures rows[i][c] == SoftmaxAverage(exp, r * shard + i + 1, ScoreOf(query.rows[i], wholeKeys, scale),
        ValueOf(wholeValues), c)
  {
    hide Weight, SoftmaxAverage, ScoreOf, RingBlocks, IsExp;
    var blocks := RingBlocks(keys, values, shard, r);
    assert Tile(blocks, |wholeKeys.rows|) by { RingTiles(keys, values, shard, wholeKeys.width, r, |wholeKeys.rows|); }
    assert CutFrom(blocks, wholeKeys, wholeValues) by { RingCutsFrom(keys, values, shard, r, wholeKeys, wholeValues); }
    StreamingIsSoftmax(exp, query, i, blocks, r * shard, wholeKeys, wholeValues, scale, c);
  }

  function PaddedShards(whole: Tensor, size: nat): (shards: seq<Tensor>)
    requires size > 0
    ensures |shards| == size
    ensures forall r: nat | r < size ::
        shards[r] == Tensor(PaddedSlice(whole.rows, r, size, Vectors.Zeros(whole.width)), whole.width)
  {
    seq(size, r requires 0 <= r < size => Tensor(PaddedSlice(whole.rows, r, size, Vectors.Zeros(whole.width)),
      whole.width))
  }

  /** The rows of every rank's output. */
  function RowsOf(outputs: seq<Tensor>): (rows: seq<seq<Row>>)
    ensures |rows| == |outputs| && forall r | 0 <= r < |outputs| :: rows[r] == outputs[r].rows
  {
    seq(|outputs|, r requires 0 <= r < |outputs| => outputs[r].rows)
  }

  /** Slicing, ring exchange, streaming attention and gathering: for every number of ranks and every length, the
      gathered rows are causal attention over the whole sequence. */
  method ContextParallelAttention(exp: real -> real, group: seq<int>, query: Tensor, keys: Tensor, values: Tensor,
                                  scale: real)
    returns (rows: seq<Row>)
    requires IsExp(exp) && group != [] && Group(group)
    requires query.Valid() && keys.Valid() && values.Valid() && query.width == keys.width
    requires |query.rows| == |keys.rows| == |values.rows|
    ensures |rows| == |query.rows|
    ensures forall p: nat, c: nat | p < |rows| && c < values.width ::
        IsAttention(exp, query, keys, values, scale, rows, p, c)
  {
    var size := |group|;
    var queryShards, keyShards, valueShards :=
      PaddedShards(query, size), PaddedShards(keys, size), PaddedShards(values, size);
    PaddedSlicesAreShards(query, size, queryShards);
    PaddedSlicesAreShards(keys, size, keyShards);
    PaddedSlicesAreShards(values, size, valueShards);
    var shard := ShardSize(|query.rows|, size);
    var outputs := RingAttend(exp, group, queryShards, keyShards, valueShards, shard, query.width, values.width,
      |query.rows|, scale);
    var all := Gather(RowsOf(outputs));
    GatherLength(RowsOf(outputs), shard);
    rows := all[..|query.rows|];
    forall p: nat, c: nat | p < |rows| && c < values.width
      ensures IsAttention(exp, query, keys, values, scale, rows, p, c) {
      RingEqualsSingleProcess(exp, queryShards, keyShards, valueShards, shard, query, keys, values, scale,
        RowsOf(outputs), p, c);
    }
  }

  /** Entry `c` of row `p` is the softmax average over positions 0..p. */
  ghost predicate IsAttention(exp: real -> real, query: Tensor, keys: Tensor, values: Tensor, scale: real,
                              rows: seq<Row>, p: nat, c: nat)
    requires query.Valid() && keys.Valid() && values.Valid() && query.width == keys.width
    requires p < |query.rows| == |keys.rows| == |values.rows| && c < values.width
  {
    && p < |rows| && c < |rows[p]| && SumTo(p + 1, Weight(exp, ScoreOf(query.rows[p], keys, scale), 0.0)) > 0.0
    && rows[p][c] == SoftmaxAverage(exp, p + 1, ScoreOf(query.rows[p], keys, scale), ValueOf(values), c)
  }
}

/** The optimizer step of all data-parallel ranks: reduce-scatter, global clipping, one flat AdamW per
    rank, and the gathered parameters written back. */
module ShardedStep {
  import opened AdamW
  import opened Chunks
  import opened FlatCollectives
  import opened FlatGather
  import opened FlatParameters
  import opened FlatShards
  import opened MasterAdamW
  import opened Results
  import opened ShardedAdamW
  import opened ShardedRun
  import opened Sums
  import opened Vectors

  /** Rank r's optimizer holds its piece of the state. */
  ghost predicate RankCells(whole: seq<AdamCell>, size: nat, r: nat, state: seq<AdamCell>) {
    && |state| == size && r * size + size <= |whole|
    && forall k: nat | k < size :: state[k] == whole[r * size + k]
  }

  ghost predicate RankHolds(optimizer: FlatAdamW, o: Options, t: nat, whole: seq<AdamCell>, size: nat, r: nat)
    reads optimizer
  {
    optimizer.Valid() && optimizer.options == o && optimizer.step == t && RankCells(whole, size, r, optimizer.State())
  }

  ghost predicate GroupHolds(optimizers: seq<FlatAdamW>, o: Options, t: nat, whole: seq<AdamCell>, size: nat)
    reads optimizers
  {
    && |whole| == |optimizers| * size
    && forall r: nat | r < |optimizers| :: RankHolds(optimizers[r], o, t, whole, size, r)
  }

  predicate Separate<T(==)>(objects: seq<T>) {
    forall i, j | 0 <= i < j < |objects| :: objects[i] != objects[j]
  }

  // ----- clipping and stepping

  /** The all-reduced squared norm of the gradient shards. */
  method GlobalNormSq(shards: seq<Vec>) returns (total: real)
    ensures total == SumSquares(Gather(shards)) >= 0.0
  {
    total := 0.0;
    var r := 0;
    while r < |shards|
      invariant 0 <= r <= |shards| && total == SumTo(r, SquaresOf(shards))
    {
      total := total + SumSquares(shards[r]);
      r := r + 1;
    }
    SquaresGather(shards);
    SquaresAreNonNegative(Gather(shards), |Gather(shards)|);
  }

  lemma RankStep(o: Options, sqrt: real -> real, t: nat, whole: seq<AdamCell>, size: nat, r: nat, state: seq<AdamCell>,
                 shards: seq<Vec>, scale: real)
    requires o.Valid() && IsRoot(sqrt) && t > 0 && r < |shards| && Widths(shards, size) && |whole| == |shards| * size
    requires RankCells(whole, size, r, state)
    ensures |Gather(shards)| == |whole|
    ensures RankCells(StepCells(o, sqrt, t, whole, Scale(Gather(shards), scale)), size, r,
        StepCells(o, sqrt, t, state, Scale(shards[r], scale)))
  {
    GatherLength(shards, size);
    var next := StepCells(o, sqrt, t, whole, Scale(Gather(shards), scale));
    forall k: nat | k < size ensures next[r * size + k] == StepCells(o, sqrt, t, state, Scale(shards[r], scale))[k] {
      GatherAt(shards, size, r, k);
      assert Scale(Gather(shards), scale)[r * size + k] == Scale(shards[r], scale)[k];
    }
  }

  /** Every rank scales its gradient shard by the common factor and steps its own optimizer. */
  method StepAll(o: Options, sqrt: real -> real, maxNorm: real, optimizers: seq<FlatAdamW>, shards: seq<Vec>,
                 size: nat, ghost t: nat, ghost whole: seq<AdamCell>)
    requires IsRoot(sqrt) && o.Valid() && Separate(optimizers) && |shards| == |optimizers| && Widths(shards, size)
    requires GroupHolds(optimizers, o, t, whole, size)
    modifies optimizers
    ensures |Gather(shards)| == |whole|
    ensures GroupHolds(optimizers, o, t + 1, WholeStep(o, sqrt, maxNorm, t + 1, whole, Gather(shards)), size)
  {
    GatherLength(shards, size);
    var normSq := GlobalNormSq(shards);
    var scale := ClipScale(sqrt, maxNorm, normSq);
    ghost var next := WholeStep(o, sqrt, maxNorm, t + 1, whole, Gather(shards));
    var r := 0;
    while r < |optimizers|
      invariant 0 <= r <= |optimizers|
      invariant forall q: nat | q < r :: RankHolds(optimizers[q], o, t + 1, next, size, q)
      invariant forall q: nat | r <= q < |optimizers| :: RankHolds(optimizers[q], o, t, whole, size, q)
    {
      assert RankHolds(optimizers[r], o, t, whole, size, r);
      RankStep(o, sqrt, t + 1, whole, size, r, optimizers[r].State(), shards, scale);
      var done := optimizers[r].Step(sqrt, Scale(shards[r], scale));
      r := r + 1;
    }
  }

  // ----- the shards' parameters

  function Shards(optimizers: seq<FlatAdamW>): (shards: seq<Vec>)
    reads optimizers
    ensures |shards| == |optimizers| && forall r | 0 <= r < |shards| :: shards[r] == optimizers[r].parameterShard
  {
    seq(|optimizers|, r reads optimizers requires 0 <= r < |optimizers| => optimizers[r].parameterShard)
  }

  lemma ShardsAreParams(optimizers: seq<FlatAdamW>, o: Options, t: nat, whole: seq<AdamCell>, size: nat)
    requires GroupHolds(optimizers, o, t, whole, size)
    ensures Widths(Shards(optimizers), size) && Gather(Shards(optimizers)) == Params(whole)
  {
    forall r: nat | r < |optimizers| ensures RankShard(Params(whole), size, r, Shards(optimizers)[r]) {
      assert RankHolds(optimizers[r], o, t, whole, size, r);
      forall k: nat | k < size ensures optimizers[r].parameterShard[k] == Params(whole)[r * size + k] {
        assert optimizers[r].State()[k] == whole[r * size + k];
      }
    }
    forall r: nat | r < |optimizers| ensures |Shards(optimizers)[r]| == size {
      assert RankShard(Params(whole), size, r, Shards(optimizers)[r]);
    }
    ShardsGather(Params(whole), size, Shards(optimizers));
  }

  // ----- the whole step

  /** A rank's parameters with their gradients. */
  function WithGradients(tensors: seq<Vec>, grads: seq<Option<Vec>>): (parameters: seq<Parameter>)
    requires |grads| == |tensors|
    ensures |parameters| == |tensors|
    ensures forall i | 0 <= i < |tensors| :: parameters[i] == Parameter(tensors[i], grads[i])
  {
    seq(|tensors|, i requires 0 <= i < |tensors| => Parameter(tensors[i], grads[i]))
  }

  ghost predicate GradientsFit(tensors: seq<Vec>, grads: seq<Option<Vec>>, n: nat) {
    && |grads| == |tensors| && GradientShapes(WithGradients(tensors, grads)) && |Gather(tensors)| == n
  }

  function Tensors(models: seq<ParameterList>): (tensors: seq<seq<Vec>>)
    reads models
    ensures |tensors| == |models| && forall r | 0 <= r < |models| :: tensors[r] == models[r].tensors
  {
    seq(|models|, r reads models requires 0 <= r < |models| => models[r].tensors)
  }

  ghost predicate AllFit(tensors: seq<seq<Vec>>, grads: seq<seq<Option<Vec>>>, n: nat) {
    |tensors| == |grads| && forall r | 0 <= r < |tensors| :: GradientsFit(tensors[r], grads[r], n)
  }

  function AllWithGradients(tensors: seq<seq<Vec>>, grads: seq<seq<Option<Vec>>>, n: nat): (ranks: seq<seq<Parameter>>)
    requires AllFit(tensors, grads, n)
    ensures |ranks| == |tensors| && SameTotal(ranks, n)
    ensures forall r | 0 <= r < |ranks| :: |grads[r]| == |tensors[r]| && ranks[r] == WithGradients(tensors[r], grads[r])
  {
    assert forall r | 0 <= r < |tensors| :: |Gather(Gradients(WithGradients(tensors[r], grads[r])))| == n by {
      forall r | 0 <= r < |tensors| ensures |Gather(Gradients(WithGradients(tensors[r], grads[r])))| == n {
        ShapesTotal(Gradients(WithGradients(tensors[r], grads[r])), tensors[r]);
      }
    }
    seq(|tensors|, r requires 0 <= r < |tensors| => WithGradients(tensors[r], grads[r]))
  }

  /** What rank r keeps about its shard, apart from the values. */
  ghost predicate OwnRanges(tensors: seq<Vec>, ranks: nat, rank: nat, own: FlatParameterShard) {
    && rank < ranks && own.originalNumel == |Gather(tensors)|
      && own.paddedNumel == PaddedLength(own.originalNumel, ranks)
    && own.shardBegin == rank * ShardSize(own.originalNumel, ranks)
      && own.shardEnd == own.shardBegin + ShardSize(own.originalNumel, ranks)
    && RangesOf(tensors, own.shardBegin, ValidNumel(own.originalNumel, own.shardBegin, own.shardEnd), own.ranges)
  }

  ghost predicate AllOwnRanges(tensors: seq<seq<Vec>>, own: seq<FlatParameterShard>) {
    |own| == |tensors| && forall r: nat | r < |tensors| :: OwnRanges(tensors[r], |tensors|, r, own[r])
  }

  /** Every rank's tensors have kept their shapes and hold `values` end to end. */
  ghost predicate AllHave(now: seq<seq<Vec>>, before: seq<seq<Vec>>, values: Vec) {
    |now| == |before| && forall r: nat | r < |now| :: SameShapes(now[r], before[r]) && Gather(now[r]) == values
  }

  function WithShards(own: seq<FlatParameterShard>, shards: seq<Vec>): (next: seq<FlatParameterShard>)
    requires |own| == |shards|
    ensures |next| == |own| && forall r | 0 <= r < |own| :: next[r] == own[r].(shard := shards[r])
  {
    seq(|own|, r requires 0 <= r < |own| => own[r].(shard := shards[r]))
  }

  lemma OwnShardNow(tensors: seq<seq<Vec>>, own: seq<FlatParameterShard>, shards: seq<Vec>, n: nat, r: nat)
    requires |shards| == |tensors| && AllOwnRanges(tensors, own) && r < |tensors| && |Gather(tensors[r])| == n
    requires Widths(shards, ShardSize(n, |shards|))
    ensures OwnShard(tensors[r], shards, r, WithShards(own, shards)[r])
  {
    assert OwnRanges(tensors[r], |tensors|, r, own[r]);
  }

  predicate Totals(tensors: seq<seq<Vec>>, n: nat) {
    forall r | 0 <= r < |tensors| :: |Gather(tensors[r])| == n
  }

  lemma FitTotals(tensors: seq<seq<Vec>>, grads: seq<seq<Option<Vec>>>, n: nat)
    requires AllFit(tensors, grads, n)
    ensures Totals(tensors, n)
  {
    forall r | 0 <= r < |tensors| ensures |Gather(tensors[r])| == n { assert GradientsFit(tensors[r], grads[r], n); }
  }

  /** One rank gathers all shards, whole or in buckets, and writes them into its parameters. */
  method GatherInto(model: ParameterList, mine: FlatParameterShard, shards: seq<Vec>, rank: nat, n: nat,
                    gatherBucket: int)
    requires OwnShard(model.tensors, shards, rank, mine) && |Gather(model.tensors)| == n <= |Gather(shards)|
    modifies model
    ensures SameShapes(model.tensors, old(model.tensors)) && Gather(model.tensors) == Gather(shards)[..n]
  {
    hide OwnShard, Gather, SameShapes;
    ghost var before := model.tensors;
    if gatherBucket > 0 {
      var done := AllGatherApplyBucketed(shards, rank, mine, model, gatherBucket);
    } else {
      AllGatherApply(shards, rank, mine, model);
    }
    ShapesTotal(model.tensors, before);
  }

  /** Every rank gathers all shards and writes them into its own parameters. */
  method WriteBack(models: seq<ParameterList>, own: seq<FlatParameterShard>, shards: seq<Vec>, n: nat,
                   gatherBucket: int, ghost optimizers: seq<FlatAdamW>)
    requires Separate(models) && models != [] && |shards| == |models| && AllOwnRanges(Tensors(models), own)
    requires Totals(Tensors(models), n) && Widths(shards, ShardSize(n, |shards|))
    modifies models
    ensures n <= |Gather(shards)| && AllHave(Tensors(models), old(Tensors(models)), Gather(shards)[..n])
    ensures forall q | 0 <= q < |optimizers| :: unchanged(optimizers[q])
  {
    GatherLength(shards, ShardSize(n, |shards|));
    hide ShardSize, Gather, OwnShard, SameShapes, AllOwnRanges;
    ShardsCover(n, |shards|);
    ghost var before := Tensors(models);
    var r := 0;
    while r < |models|
      invariant 0 <= r <= |models|
      invariant forall q | 0 <= q < r ::
          SameShapes(models[q].tensors, before[q]) && Gather(models[q].tensors) == Gather(shards)[..n]
      invariant forall q | r <= q < |models| :: models[q].tensors == before[q]
    {
      OwnShardNow(before, own, shards, n, r);
      GatherInto(models[r], WithShards(own, shards)[r], shards, r, n, gatherBucket);
      r := r + 1;
    }
  }

  /** The gradient of all ranks that the step works with, shard by shard and end to end. */
  function GroupGradient(tensors: seq<seq<Vec>>, grads: seq<seq<Option<Vec>>>, n: nat,
                         average: bool): (shards: seq<Vec>)
    requires tensors != [] && AllFit(tensors, grads, n)
    ensures |shards| == |tensors| && Widths(shards, ShardSize(n, |tensors|))
    ensures |Gather(shards)| == |tensors| * ShardSize(n, |tensors|)
  {
    GatherLength(GradientShards(AllWithGradients(tensors, grads, n), n, average), ShardSize(n, |tensors|));
    GradientShards(AllWithGradients(tensors, grads, n), n, average)
  }

  method ReduceGradients(tensors: seq<seq<Vec>>, grads: seq<seq<Option<Vec>>>, n: nat, average: bool, reduceBucket: int)
    returns (shards: seq<Vec>)
    requires tensors != [] && AllFit(tensors, grads, n)
    ensures shards == GroupGradient(tensors, grads, n, average)
  {
    var ranks := AllWithGradients(tensors, grads, n);
    if reduceBucket > 0 {
      var reduced := ReduceScatterGradientsBucketed(ranks, n, average, reduceBucket);
      shards := reduced.value;
    } else {
      shards := ReduceScatterGradients(ranks, n, average);
    }
  }

  /** The state of all ranks, end to end, after step t + 1. */
  ghost function NextWhole(sqrt: real -> real, maxNorm: real, average: bool, tensors: seq<seq<Vec>>,
                           grads: seq<seq<Option<Vec>>>,
                           n: nat, o: Options, t: nat, whole: seq<AdamCell>): (next: seq<AdamCell>)
    requires tensors != [] && AllFit(tensors, grads, n) && IsRoot(sqrt) && o.Valid()
    requires |whole| == |tensors| * ShardSize(n, |tensors|)
    ensures |next| == |whole|
  {
    WholeStep(o, sqrt, maxNorm, t + 1, whole, Gather(GroupGradient(tensors, grads, n, average)))
  }

  /** The part before the parameters are gathered: reduce, clip, step. */
  method StepShards(sqrt: real -> real, maxNorm: real, average: bool, tensors: seq<seq<Vec>>,
                    grads: seq<seq<Option<Vec>>>,
                    optimizers: seq<FlatAdamW>, n: nat, reduceBucket: int, o: Options, ghost t: nat,
                      ghost whole: seq<AdamCell>,
                    ghost models: seq<ParameterList>)
    returns (params: seq<Vec>)
    requires tensors != [] && Separate(optimizers) && |optimizers| == |tensors| && AllFit(tensors, grads, n)
    requires IsRoot(sqrt) && o.Valid() && GroupHolds(optimizers, o, t, whole, ShardSize(n, |tensors|))
    modifies optimizers
    ensures GroupHolds(optimizers, o, t + 1, NextWhole(sqrt, maxNorm, average, tensors, grads, n, o, t, whole),
        ShardSize(n, |tensors|))
    ensures params == Shards(optimizers) && Widths(params, ShardSize(n, |tensors|))
    ensures Tensors(models) == old(Tensors(models))
    ensures Gather(params) == Params(NextWhole(sqrt, maxNorm, average, tensors, grads, n, o, t, whole))
  {
    var shards := ReduceGradients(tensors, grads, n, average, reduceBucket);
    StepAll(o, sqrt, maxNorm, optimizers, shards, ShardSize(n, |tensors|), t, whole);
    params := Shards(optimizers);
    ShardsAreParams(optimizers, o, t + 1, NextWhole(sqrt, maxNorm, average, tensors, grads, n, o, t, whole),
      ShardSize(n, |tensors|));
  }

  ghost predicate WrittenBack(now: seq<seq<Vec>>, before: seq<seq<Vec>>, n: nat, next: seq<AdamCell>) {
    n <= |next| && AllHave(now, before, Params(next)[..n])
  }

  method StepRanks(sqrt: real -> real, maxNorm: real, average: bool, models: seq<ParameterList>,
                   grads: seq<seq<Option<Vec>>>,
                   optimizers: seq<FlatAdamW>, own: seq<FlatParameterShard>, n: nat, reduceBucket: int,
                     gatherBucket: int,
                   o: Options, ghost t: nat, ghost whole: seq<AdamCell>, ghost next: seq<AdamCell>)
    returns (params: seq<Vec>)
    requires models != [] && Separate(models) && Separate(optimizers) && |optimizers| == |models|
    requires IsRoot(sqrt) && o.Valid() && GroupHolds(optimizers, o, t, whole, ShardSize(n, |models|))
    requires AllFit(Tensors(models), grads, n) && AllOwnRanges(Tensors(models), own)
    requires next == NextWhole(sqrt, maxNorm, average, Tensors(models), grads, n, o, t, whole)
    modifies models, optimizers
    ensures GroupHolds(optimizers, o, t + 1, next, ShardSize(n, |models|)) && params == Shards(optimizers)
    ensures WrittenBack(Tensors(models), old(Tensors(models)), n, next)
  {
    FitTotals(Tensors(models), grads, n);
    params := StepShards(sqrt, maxNorm, average, Tensors(models), grads, optimizers, n, reduceBucket, o, t, whole,
      models);
    WriteBack(models, own, params, n, gatherBucket, optimizers);
  }

  /** flat_sharded_adamw_step on all ranks of a data-parallel group that is also the norm group. */
  method FlatShardedAdamWStep(sqrt: real -> real, maxNorm: real, average: bool, models: seq<ParameterList>,
                              grads: seq<seq<Option<Vec>>>,
                              optimizers: seq<FlatAdamW>, own: seq<FlatParameterShard>, n: nat, reduceBucket: int,
                                gatherBucket: int,
                              o: Options, ghost t: nat, ghost whole: seq<AdamCell>, ghost next: seq<AdamCell>)
    returns (r: Result<seq<FlatParameterShard>>)
    requires models != [] && Separate(models) && Separate(optimizers) && |optimizers| == |models|
    requires IsRoot(sqrt) && o.Valid() && GroupHolds(optimizers, o, t, whole, ShardSize(n, |models|))
    requires AllFit(Tensors(models), grads, n) && AllOwnRanges(Tensors(models), own)
    requires next == NextWhole(sqrt, maxNorm, average, Tensors(models), grads, n, o, t, whole)
    modifies models, optimizers
    ensures r.Ok? <==> maxNorm >= 0.0
    ensures r.Err? ==> Tensors(models) == old(Tensors(models))
    ensures r.Err? ==> GroupHolds(optimizers, o, t, whole, ShardSize(n, |models|))
    ensures r.Ok? ==> GroupHolds(optimizers, o, t + 1, next, ShardSize(n, |models|))
    ensures r.Ok? ==> r.value == WithShards(own, Shards(optimizers))
    ensures r.Ok? ==> WrittenBack(Tensors(models), old(Tensors(models)), n, next)
  {
    if maxNorm < 0.0 {
      return Err("flat_sharded_adamw_step max_grad_norm must be non-negative");
    }
    var params := StepRanks(sqrt, maxNorm, average, models, grads, optimizers, own, n, reduceBucket, gatherBucket, o,
      t, whole, next);
    return Ok(WithShards(own, params));
  }

  // ----- the step is the step of the run

  function AllSome(grads: seq<seq<Vec>>): (r: seq<seq<Option<Vec>>>)
    ensures |r| == |grads| && forall q | 0 <= q < |r| :: r[q] == Somes(grads[q])
  {
    seq(|grads|, q requires 0 <= q < |grads| => Somes(grads[q]))
  }

  lemma GradientsFitSome(tensors: seq<Vec>, grads: seq<Vec>, n: nat)
    requires SameShapes(grads, tensors) && |Gather(tensors)| == n
    ensures GradientsFit(tensors, Somes(grads), n) && Gradients(WithGradients(tensors, Somes(grads))) == grads
  {
  }

  /** With every gradient there and averaging on, the step's gradient is the mean of the padded flats. */
  lemma GroupGradientIsMean(tensors: seq<seq<Vec>>, grads: seq<seq<Vec>>, template: seq<Vec>, n: nat, width: nat)
    requires |tensors| == |grads| && GroupShapes(tensors, template) && GroupShapes(grads, template)
    requires n == |Gather(template)| && width == PaddedLength(n, |grads|)
    ensures AllFit(tensors, AllSome(grads), n)
    ensures Gather(GroupGradient(tensors, AllSome(grads), n, true))
        == Reduced(PaddedFlats(grads, template, width), width, true)
  {
    forall r | 0 <= r < |tensors|
      ensures GradientsFit(tensors[r], AllSome(grads)[r], n)
      ensures Gradients(WithGradients(tensors[r], AllSome(grads)[r])) == grads[r] {
      ShapesTotal(tensors[r], template);
      GradientsFitSome(tensors[r], grads[r], n);
    }
    var ranks, size := AllWithGradients(tensors, AllSome(grads), n), ShardSize(n, |grads|);
    ShardsCover(n, |grads|);
    assert Flats(ranks, n) == PaddedFlats(grads, template, width);
    ReducedShards(Flats(ranks, n), size, true);
  }

  /** The scattered shards of a reduction are the reduction. */
  lemma ReducedShards(flats: seq<Vec>, size: nat, average: bool)
    requires flats != [] && Chunked(flats, size)
    ensures Gather(ReduceScatter(flats, size, average)) == Reduced(flats, |flats| * size, average)
  {
    var whole, shards := Reduced(flats, |flats| * size, average), ReduceScatter(flats, size, average);
    forall r: nat | r < |shards| ensures RankShard(whole, size, r, shards[r]) {
      MulAtLeast(|flats|, r + 1, size);
      forall k: nat | k < size ensures shards[r][k] == whole[r * size + k] {
        assert shards[r][k] == ScatteredEntry(flats, size, average, r, k);
      }
    }
    ShardsGather(whole, size, shards);
  }

  /** One step of the ranks is one step of the run: the gathered parameters and the backward passes' gradients
      determine the next state as the run says. */
  lemma StepIsRunStep(s: Setup, k: nat, whole: seq<AdamCell>, tensors: seq<seq<Vec>>)
    requires ValidSetup(s) && |whole| == PaddedLength(|Gather(s.initial)|, s.ranks) >= |Gather(s.initial)|
    requires |tensors| == s.ranks && forall r | 0 <= r < |tensors| :: tensors[r] == Gathered(s, whole)
    ensures AllFit(tensors, AllSome(GradsAt(s, k, Gathered(s, whole))), |Gather(s.initial)|)
    ensures |whole| == |tensors| * ShardSize(|Gather(s.initial)|, |tensors|)
    ensures NextWhole(s.sqrt, s.maxNorm, true, tensors, AllSome(GradsAt(s, k, Gathered(s, whole))),
        |Gather(s.initial)|, s.o, k, whole)
         == ShardedNext(s, k, whole)
  {
    ShardsCover(|Gather(s.initial)|, s.ranks);
    GroupGradientIsMean(tensors, GradsAt(s, k, Gathered(s, whole)), s.initial, |Gather(s.initial)|, |whole|);
  }
}

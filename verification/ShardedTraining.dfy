/** Whole training runs on the optimizer objects: the data-parallel ranks with flat shards, and the unsharded
    optimizer on the averaged gradient. Both end with the same parameters. */
module ShardedTraining {
  import opened AdamW
  import opened Chunks
  import opened FlatParameters
  import opened FlatShards
  import opened MasterAdamW
  import opened Results
  import opened ShardedAdamW
  import opened ShardedRun
  import opened ShardedStep
  import opened Vectors

  // ----- the unsharded optimizer

  /** The optimizer holds these states, and the model their parameters. */
  ghost predicate Holds(optimizer: Fp32MasterAdamW, states: seq<seq<AdamCell>>)
    reads optimizer
  {
    && optimizer.Valid() && |states| == |optimizer.numels|
    && forall i: nat | i < |states| :: optimizer.TensorState(i) == states[i] && optimizer.model[i] == Params(states[i])
  }

  /** What AdamW leaves in a tensor is its master weights. */
  lemma ParamsOfCells(p: Vec, m: Vec, v: Vec)
    requires |p| == |m| == |v| && NonNegatives(v)
    ensures Params(Cells(p, m, v)) == p
  {
  }

  lemma AddOnce(g: Vec)
    ensures AddScaled(Zeros(|g|), g, 1.0) == g
  {
  }

  /** zero_grad, a backward pass that leaves `grads`, and its accumulation into the main gradients. */
  method TakeGradients(optimizer: Fp32MasterAdamW, grads: seq<Vec>)
    requires optimizer.Valid() && Shapes(grads, optimizer.numels)
    modifies optimizer`mainGrad, optimizer`hasMainGrad, optimizer`modelGrad
    ensures optimizer.Valid() && optimizer.Grads() == Somes(grads)
  {
    optimizer.ZeroGrad();
    optimizer.modelGrad := Somes(grads);
    optimizer.AccumulateModelGrads(1.0);
    forall i | 0 <= i < |grads| ensures optimizer.GradOf(i) == Some(grads[i]) { AddOnce(grads[i]); }
  }

  /** Norm, clipping and step on gradients that all parameters have: exactly the reference step. */
  method ClippedStep(optimizer: Fp32MasterAdamW, sqrt: real -> real, maxNorm: real, grads: seq<Vec>,
                     ghost states: seq<seq<AdamCell>>)
    requires IsRoot(sqrt) && Holds(optimizer, states) && optimizer.Grads() == Somes(grads) && SameSizes(states, grads)
    modifies optimizer
    ensures optimizer.Valid() && optimizer.step == old(optimizer.step) + 1
    ensures Holds(optimizer, ReferenceStep(optimizer.options, sqrt, maxNorm, optimizer.step, states, grads))
  {
    hide StepCells, NormSq, ClipScale, Gather, Params, Cells;
    NormGather(grads);
    SquaresAreNonNegative(Gather(grads), |Gather(grads)|);
    var total := optimizer.GradL2NormSq();
    var scale := ClipScale(sqrt, maxNorm, total);
    ghost var before := optimizer.Grads();
    assert forall i | 0 <= i < |optimizer.numels| :: optimizer.GradOf(i) == before[i] == Some(grads[i]);
    optimizer.ScaleGradients(scale);
    assert forall i | 0 <= i < |optimizer.numels| :: optimizer.GradOf(i) == Some(Scale(grads[i], scale));
    optimizer.Step(sqrt);
    ghost var next := ReferenceStep(optimizer.options, sqrt, maxNorm, optimizer.step, states, grads);
    forall i: nat | i < |next| ensures optimizer.TensorState(i) == next[i] && optimizer.model[i] == Params(next[i]) {
      assert optimizer.GradOf(i) == Some(Scale(grads[i], scale));
      ParamsOfCells(optimizer.master[i], optimizer.expAvg[i], optimizer.expAvgSq[i]);
    }
  }

  // ----- backward passes

  /** Every rank's backward pass at step `k` on the parameters it holds. */
  method BackwardAll(s: Setup, k: nat, tensors: seq<seq<Vec>>, ghost current: seq<Vec>) returns (grads: seq<seq<Vec>>)
    requires ValidSetup(s) && SameShapes(current, s.initial)
    requires |tensors| == s.ranks && forall r | 0 <= r < |tensors| :: tensors[r] == current
    ensures grads == GradsAt(s, k, current)
  {
    grads := [];
    for r := 0 to s.ranks
      invariant |grads| == r && forall q | 0 <= q < r :: grads[q] == GradAt(s, k, current, q)
    {
      grads := grads + [s.backward(k, r, tensors[r])];
    }
  }

  // ----- the run of the unsharded optimizer

  lemma InitialStates(s: Setup)
    requires ValidSetup(s)
    ensures |ReferenceRun(s, 0)| == |s.initial|
    ensures forall i | 0 <= i < |s.initial| :: ReferenceRun(s, 0)[i] == Fresh(s.initial[i])
    ensures TensorParams(ReferenceRun(s, 0)) == s.initial
  {
    forall i | 0 <= i < |s.initial| ensures Params(Fresh(s.initial[i])) == s.initial[i] {}
  }

  lemma HoldsParams(optimizer: Fp32MasterAdamW, states: seq<seq<AdamCell>>)
    requires Holds(optimizer, states)
    ensures optimizer.model == TensorParams(states)
  {
  }

  lemma NextIsStep(s: Setup, k: nat, states: seq<seq<AdamCell>>, model: seq<Vec>, means: seq<Vec>)
    requires ValidSetup(s) && states == ReferenceRun(s, k) && model == TensorParams(states)
    requires SameShapes(model, s.initial)
    requires means == MeanTensors(GradsAt(s, k, model), s.initial)
    ensures SameSizes(states, means) && SameShapes(means, s.initial)
    ensures ReferenceRun(s, k + 1) == ReferenceStep(s.o, s.sqrt, s.maxNorm, k + 1, states, means)
  {
    RunUnfolds(s, k);
  }

  lemma ModelShapes(s: Setup, optimizer: Fp32MasterAdamW, states: seq<seq<AdamCell>>)
    requires ValidSetup(s) && Holds(optimizer, states) && SameSizes(states, s.initial)
    ensures optimizer.model == TensorParams(states) && SameShapes(optimizer.model, s.initial)
  {
    HoldsParams(optimizer, states);
  }

  /** One training step: all ranks' gradients at the optimizer's parameters, their mean, clipping, AdamW. */
  method UnshardedStep(s: Setup, optimizer: Fp32MasterAdamW, k: nat)
    requires ValidSetup(s) && optimizer.options == s.o && optimizer.step == k && Holds(optimizer, ReferenceRun(s, k))
    modifies optimizer
    ensures optimizer.step == k + 1 && Holds(optimizer, ReferenceRun(s, k + 1))
  {
    hide *;
    ghost var states := ReferenceRun(s, k);
    ModelShapes(s, optimizer, states);
    var model := optimizer.model;
    var grads := BackwardAll(s, k, seq(s.ranks, _ => model), model);
    var means := MeanTensors(grads, s.initial);
    NextIsStep(s, k, states, model, means);
    ShapesOfStates(s, optimizer, states, means);
    StepOnGradients(optimizer, s.sqrt, s.maxNorm, means, states);
  }

  method StepOnGradients(optimizer: Fp32MasterAdamW, sqrt: real -> real, maxNorm: real, grads: seq<Vec>,
                         ghost states: seq<seq<AdamCell>>)
    requires IsRoot(sqrt) && Holds(optimizer, states) && Shapes(grads, optimizer.numels) && SameSizes(states, grads)
    modifies optimizer
    ensures optimizer.Valid() && optimizer.step == old(optimizer.step) + 1
    ensures Holds(optimizer, ReferenceStep(optimizer.options, sqrt, maxNorm, optimizer.step, states, grads))
  {
    TakeGradients(optimizer, grads);
    ClippedStep(optimizer, sqrt, maxNorm, grads, states);
  }

  lemma ShapesOfStates(s: Setup, optimizer: Fp32MasterAdamW, states: seq<seq<AdamCell>>, means: seq<Vec>)
    requires ValidSetup(s) && Holds(optimizer, states) && SameSizes(states, s.initial) && SameShapes(means, s.initial)
    ensures IsRoot(s.sqrt) && Shapes(means, optimizer.numels) && SameSizes(states, means)
  {
    forall i: nat | i < |means|
      ensures |means[i]| == optimizer.numels[i]
    {
      assert optimizer.model[i] == Params(states[i]);
    }
  }

  method TrainUnsharded(s: Setup, steps: nat) returns (optimizer: Fp32MasterAdamW)
    requires ValidSetup(s)
    ensures fresh(optimizer) && Holds(optimizer, ReferenceRun(s, steps))
    ensures optimizer.model == TensorParams(ReferenceRun(s, steps))
  {
    optimizer := new Fp32MasterAdamW(s.initial, s.o);
    InitialStates(s);
    var k := 0;
    while k < steps
      invariant 0 <= k <= steps && fresh(optimizer)
      invariant optimizer.options == s.o && optimizer.step == k && Holds(optimizer, ReferenceRun(s, k))
    {
      UnshardedStep(s, optimizer, k);
      k := k + 1;
    }
    HoldsParams(optimizer, ReferenceRun(s, steps));
  }

  // ----- the run of the ranks

  lemma SameOwnRanges(a: seq<Vec>, b: seq<Vec>, ranks: nat, rank: nat, own: FlatParameterShard, shard: Vec)
    requires SameShapes(a, b) && OwnRanges(a, ranks, rank, own)
    ensures OwnRanges(b, ranks, rank, own.(shard := shard))
  {
    ShapesTotal(a, b);
    SameRanges(a, b, own.shardBegin, ValidNumel(own.originalNumel, own.shardBegin, own.shardEnd), own.ranges);
  }

  /** All ranks hold these parameters. */
  ghost predicate AllAre(tensors: seq<seq<Vec>>, current: seq<Vec>) {
    forall r | 0 <= r < |tensors| :: tensors[r] == current
  }

  lemma RangesKept(tensors: seq<seq<Vec>>, own: seq<FlatParameterShard>, shards: seq<Vec>, current: seq<Vec>,
                   now: seq<seq<Vec>>, next: seq<Vec>)
    requires AllOwnRanges(tensors, own) && |shards| == |own| && AllAre(tensors, current) && AllAre(now, next)
    requires |now| == |tensors| && SameShapes(current, next)
    ensures AllOwnRanges(now, WithShards(own, shards))
  {
    forall r: nat | r < |now| ensures OwnRanges(now[r], |now|, r, WithShards(own, shards)[r]) {
      SameOwnRanges(tensors[r], now[r], |now|, r, own[r], shards[r]);
    }
  }

  /** What a step writes back is what the run says every rank gathers. */
  lemma WrittenIsGathered(s: Setup, now: seq<seq<Vec>>, before: seq<seq<Vec>>, current: seq<Vec>, next: seq<AdamCell>)
    requires SameShapes(current, s.initial) && AllAre(before, current) && |next| >= |Gather(s.initial)|
    requires WrittenBack(now, before, |Gather(s.initial)|, next)
    ensures |now| == |before| && AllAre(now, Gathered(s, next))
  {
    forall r | 0 <= r < |now| ensures now[r] == Gathered(s, next) { UnflattenGather(s.initial, now[r]); }
  }

  /** The ranks after `k` steps: every optimizer holds its piece of the state, every model the gathered parameters. */
  ghost predicate RanksHold(s: Setup, models: seq<ParameterList>, optimizers: seq<FlatAdamW>,
                            own: seq<FlatParameterShard>, k: nat)
    requires ValidSetup(s)
    reads models, optimizers
  {
    && |models| == |optimizers| == s.ranks && AllOwnRanges(Tensors(models), own)
    && GroupHolds(optimizers, s.o, k, ShardedStates(s, k), ShardSize(|Gather(s.initial)|, s.ranks))
    && AllAre(Tensors(models), Gathered(s, ShardedStates(s, k)))
  }

  /** One training step on all ranks: backward on every rank, then flat_sharded_adamw_step. */
  method ShardedTrainingStep(s: Setup, models: seq<ParameterList>, optimizers: seq<FlatAdamW>,
                             own: seq<FlatParameterShard>,
                             k: nat, reduceBucket: int, gatherBucket: int) returns (next: seq<FlatParameterShard>)
    requires ValidSetup(s) && s.maxNorm >= 0.0 && Separate(models) && Separate(optimizers)
    requires RanksHold(s, models, optimizers, own, k)
    modifies models, optimizers
    ensures RanksHold(s, models, optimizers, next, k + 1)
  {
    ghost var whole, n := ShardedStates(s, k), |Gather(s.initial)|;
    ghost var current, before := Gathered(s, whole), Tensors(models);
    var grads := BackwardAll(s, k, Tensors(models), current);
    StepIsRunStep(s, k, whole, before);
    RunUnfolds(s, k);
    var numel := |Gather(s.initial)|;
    var done := FlatShardedAdamWStep(s.sqrt, s.maxNorm, true, models, AllSome(grads), optimizers, own, numel,
      reduceBucket, gatherBucket,
                                     s.o, k, whole, ShardedStates(s, k + 1));
    next := done.value;
    WrittenIsGathered(s, Tensors(models), before, current, ShardedStates(s, k + 1));
    RangesKept(before, own, Shards(optimizers), current, Tensors(models), Gathered(s, ShardedStates(s, k + 1)));
  }

  /** A whole run of the ranks ends with the reference parameters on every rank, for every number of steps and every
      bucket size. */
  method TrainSharded(s: Setup, models: seq<ParameterList>, optimizers: seq<FlatAdamW>, start: seq<FlatParameterShard>,
                      steps: nat, reduceBucket: int, gatherBucket: int)
    requires ValidSetup(s) && s.maxNorm >= 0.0 && Separate(models) && Separate(optimizers)
    requires RanksHold(s, models, optimizers, start, 0)
    modifies models, optimizers
    ensures forall r | 0 <= r < |models| :: models[r].tensors == TensorParams(ReferenceRun(s, steps))
  {
    hide *;
    var own, k := start, 0;
    while k < steps
      invariant 0 <= k <= steps && RanksHold(s, models, optimizers, own, k)
    {
      own := ShardedTrainingStep(s, models, optimizers, own, k, reduceBucket, gatherBucket);
      k := k + 1;
    }
    RanksHaveReference(s, models, optimizers, own, steps);
  }

  lemma RanksHaveReference(s: Setup, models: seq<ParameterList>, optimizers: seq<FlatAdamW>,
                           own: seq<FlatParameterShard>, k: nat)
    requires ValidSetup(s) && RanksHold(s, models, optimizers, own, k)
    ensures forall r | 0 <= r < |models| :: models[r].tensors == TensorParams(ReferenceRun(s, k))
  {
    RunRefines(s, k);
    forall r | 0 <= r < |models| ensures models[r].tensors == TensorParams(ReferenceRun(s, k)) {
      assert Tensors(models)[r] == models[r].tensors;
    }
  }

  // ----- starting the ranks, and the whole comparison

  /** Rank `r` cut its shard from the initial parameters and made its optimizer of it. */
  ghost predicate RankStarted(s: Setup, model: ParameterList, optimizer: FlatAdamW, own: FlatParameterShard, r: nat)
    requires s.ranks > 0
    reads model, optimizer
  {
    && model.tensors == s.initial && ShardOf(s.initial, s.ranks, r, own)
    && optimizer.Valid() && optimizer.options == s.o && optimizer.step == 0 && optimizer.State() == Fresh(own.shard)
  }

  lemma StartedRankHolds(s: Setup, model: ParameterList, optimizer: FlatAdamW, own: FlatParameterShard, r: nat,
                         size: nat)
    requires s.ranks > 0 && RankStarted(s, model, optimizer, own, r) && size == ShardSize(|Gather(s.initial)|, s.ranks)
    ensures OwnRanges(model.tensors, s.ranks, r, own)
    ensures RankHolds(optimizer, s.o, 0, Fresh(PaddedFlat(s.initial, s.ranks)), size, r)
  {
    ShardInside(|Gather(s.initial)|, s.ranks, r);
  }

  lemma InitialWhole(s: Setup)
    requires ValidSetup(s)
    ensures ShardedStates(s, 0) == Fresh(PaddedFlat(s.initial, s.ranks))
    ensures |ShardedStates(s, 0)| == s.ranks * ShardSize(|Gather(s.initial)|, s.ranks)
    ensures Gathered(s, ShardedStates(s, 0)) == s.initial
  {
    hide ReferenceRun, ReferenceNext, ShardedNext, Gathered, Gather, ShardSize, PaddedLength, TensorParams;
    ShardsCover(|Gather(s.initial)|, s.ranks);
    RunRefines(s, 0);
    InitialStates(s);
  }

  lemma StartedRanksHold(s: Setup, models: seq<ParameterList>, optimizers: seq<FlatAdamW>, own: seq<FlatParameterShard>)
    requires ValidSetup(s) && |models| == |optimizers| == |own| == s.ranks
    requires forall r: nat | r < s.ranks :: RankStarted(s, models[r], optimizers[r], own[r], r)
    ensures RanksHold(s, models, optimizers, own, 0)
  {
    var size := ShardSize(|Gather(s.initial)|, s.ranks);
    InitialWhole(s);
    forall r: nat | r < s.ranks
      ensures OwnRanges(models[r].tensors, s.ranks, r, own[r])
      ensures RankHolds(optimizers[r], s.o, 0, ShardedStates(s, 0), size, r)
    {
      StartedRankHolds(s, models[r], optimizers[r], own[r], r, size);
    }
  }

  method StartRank(s: Setup, r: nat) returns (model: ParameterList, optimizer: FlatAdamW, own: FlatParameterShard)
    requires ValidSetup(s) && r < s.ranks
    ensures fresh(model) && fresh(optimizer) && RankStarted(s, model, optimizer, own, r)
  {
    model := new ParameterList(s.initial);
    var shard := FlattenShard(s.initial, s.ranks, r);
    own := shard.value;
    optimizer := new FlatAdamW(own.shard, s.o);
  }

  method StartRanks(s: Setup) returns (models: seq<ParameterList>, optimizers: seq<FlatAdamW>,
                    own: seq<FlatParameterShard>)
    requires ValidSetup(s)
    ensures fresh(models) && fresh(optimizers) && Separate(models) && Separate(optimizers)
    ensures RanksHold(s, models, optimizers, own, 0)
  {
    models, optimizers, own := [], [], [];
    for r := 0 to s.ranks
      invariant |models| == |optimizers| == |own| == r && fresh(models) && fresh(optimizers)
      invariant Separate(models) && Separate(optimizers)
      invariant forall q: nat | q < r :: RankStarted(s, models[q], optimizers[q], own[q], q)
    {
      var model, optimizer, shard := StartRank(s, r);
      models, optimizers, own := models + [model], optimizers + [optimizer], own + [shard];
    }
    StartedRanksHold(s, models, optimizers, own);
  }

  /** From the same start, with any number of ranks, steps and any bucket sizes, every rank ends with the parameters of
      the unsharded optimizer. */
  method TrainBoth(s: Setup, steps: nat, reduceBucket: int, gatherBucket: int)
    returns (models: seq<ParameterList>, reference: Fp32MasterAdamW)
    requires ValidSetup(s) && s.maxNorm >= 0.0
    ensures |models| == s.ranks && forall r | 0 <= r < s.ranks :: models[r].tensors == reference.model
  {
    hide *;
    reference := TrainUnsharded(s, steps);
    ghost var final := reference.model;
    var optimizers, own;
    models, optimizers, own := StartRanks(s);
    RanksCounted(s, models, optimizers, own);
    TrainSharded(s, models, optimizers, own, steps, reduceBucket, gatherBucket);
    assert reference.model == final;
  }

  lemma RanksCounted(s: Setup, models: seq<ParameterList>, optimizers: seq<FlatAdamW>, own: seq<FlatParameterShard>)
    requires ValidSetup(s) && RanksHold(s, models, optimizers, own, 0)
    ensures |models| == s.ranks
  {
  }
}

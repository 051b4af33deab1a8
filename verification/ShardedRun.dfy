/** Training runs: sharded against unsharded. */
module ShardedRun {
  import opened AdamW
  import opened Chunks
  import opened FlatCollectives
  import opened FlatParameters
  import opened FlatShards
  import opened ShardedAdamW
  import opened Sums
  import opened Vectors

  // ----- the averaged gradient, flat and tensor by tensor

  /** `grads[r]` are rank r's gradients; all ranks' tensors have the template's shapes. */
  predicate GroupShapes(grads: seq<seq<Vec>>, template: seq<Vec>) {
    grads != [] && forall r | 0 <= r < |grads| :: SameShapes(grads[r], template)
  }

  function TensorOfRanks(grads: seq<seq<Vec>>, template: seq<Vec>, i: nat): (vectors: seq<Vec>)
    requires GroupShapes(grads, template) && i < |template|
    ensures |vectors| == |grads| && Widths(vectors, |template[i]|)
    ensures forall r | 0 <= r < |grads| :: vectors[r] == grads[r][i]
  {
    seq(|grads|, r requires 0 <= r < |grads| => grads[r][i])
  }

  /** The mean over all ranks of every gradient tensor. */
  function MeanTensors(grads: seq<seq<Vec>>, template: seq<Vec>): (means: seq<Vec>)
    requires GroupShapes(grads, template)
    ensures SameShapes(means, template)
    ensures forall i | 0 <= i < |means| :: means[i] == Reduced(TensorOfRanks(grads, template, i), |template[i]|, true)
  {
    seq(|template|, i requires 0 <= i < |template| => Reduced(TensorOfRanks(grads, template, i), |template[i]|, true))
  }

  function PaddedFlats(grads: seq<seq<Vec>>, template: seq<Vec>, width: nat): (flats: seq<Vec>)
    requires GroupShapes(grads, template) && width == PaddedLength(|Gather(template)|, |grads|)
    ensures |flats| == |grads| && Widths(flats, width)
    ensures forall r | 0 <= r < |grads| :: flats[r] == PaddedFlat(grads[r], |grads|)
  {
    assert forall r | 0 <= r < |grads| :: |Gather(grads[r])| == |Gather(template)| by {
      forall r | 0 <= r < |grads| ensures |Gather(grads[r])| == |Gather(template)| { ShapesTotal(grads[r], template); }
    }
    seq(|grads|, r requires 0 <= r < |grads| => PaddedFlat(grads[r], |grads|))
  }

  /** The mean of the padded flat gradients is the concatenation of the mean tensors, zero beyond it. */
  lemma MeanGathers(grads: seq<seq<Vec>>, template: seq<Vec>, n: nat, width: nat)
    requires GroupShapes(grads, template) && n == |Gather(template)| && width == PaddedLength(n, |grads|)
    ensures n <= width && |Gather(MeanTensors(grads, template))| == n
    ensures Reduced(PaddedFlats(grads, template, width), width, true)[..n] == Gather(MeanTensors(grads, template))
    ensures ZeroAfter(Reduced(PaddedFlats(grads, template, width), width, true), n)
  {
    var mean, means := Reduced(PaddedFlats(grads, template, width), width, true), MeanTensors(grads, template);
    ShardsCover(n, |grads|);
    ShapesTotal(means, template);
    forall p: nat | p < n ensures mean[p] == Gather(means)[p] { MeanEntry(grads, template, n, width, p); }
    forall p: nat | n <= p < width ensures mean[p] == 0.0 { MeanPadding(grads, template, n, width, p); }
  }

  lemma MeanEntry(grads: seq<seq<Vec>>, template: seq<Vec>, n: nat, width: nat, p: nat)
    requires GroupShapes(grads, template) && n == |Gather(template)| <= width == PaddedLength(n, |grads|) && p < n
    requires |Gather(MeanTensors(grads, template))| == n
    ensures ReducedEntry(PaddedFlats(grads, template, width), width, true, p) == Gather(MeanTensors(grads, template))[p]
  {
    var flats := PaddedFlats(grads, template, width);
    TotalNumel(template);
    var i := LocateTensor(template, |template|, p);
    var k := p - TensorBegin(template, i);
    var vectors := TensorOfRanks(grads, template, i);
    forall r: nat | r < |grads| ensures flats[r][p] == vectors[r][k] {
      ShapesBegin(grads[r], template, i);
      ShapesTotal(grads[r], template);
      ElementAt(grads[r], i, p);
    }
    ReducedAlike(flats, width, p, vectors, |template[i]|, k, true);
    ShapesBegin(MeanTensors(grads, template), template, i);
    ElementAt(MeanTensors(grads, template), i, p);
  }

  lemma MeanPadding(grads: seq<seq<Vec>>, template: seq<Vec>, n: nat, width: nat, p: nat)
    requires GroupShapes(grads, template) && n == |Gather(template)| && width == PaddedLength(n, |grads|)
    requires n <= p < width
    ensures ReducedEntry(PaddedFlats(grads, template, width), width, true, p) == 0.0
  {
    var flats := PaddedFlats(grads, template, width);
    forall r: nat | r < |grads| ensures Entry(flats, width, p)(r) == 0.0 { ShapesTotal(grads[r], template); }
    SumZero(|grads|, Entry(flats, width, p));
  }

  // ----- parameters

  function Params(cells: seq<AdamCell>): (p: Vec)
    ensures |p| == |cells| && forall i | 0 <= i < |p| :: p[i] == cells[i].p
  {
    seq(|cells|, i requires 0 <= i < |cells| => cells[i].p)
  }

  function TensorParams(states: seq<seq<AdamCell>>): (tensors: seq<Vec>)
    ensures SameSizes(states, tensors) && forall i | 0 <= i < |states| :: tensors[i] == Params(states[i])
  {
    seq(|states|, i requires 0 <= i < |states| => Params(states[i]))
  }

  lemma {:induction false} ParamsGather(states: seq<seq<AdamCell>>)
    ensures Params(Gather(states)) == Gather(TensorParams(states))
  {
    if states != [] {
      var n := |states| - 1;
      ParamsGather(states[..n]);
      assert TensorParams(states)[..n] == TensorParams(states[..n]);
    }
  }

  /** The stretch of a flat tensor where the template's tensor i stands. */
  function Piece(template: seq<Vec>, flat: Vec, i: nat): (t: Vec)
    requires |flat| == |Gather(template)| && i < |template|
    ensures |t| == |template[i]|
    ensures forall k: nat | k < |t| ::
        TensorBegin(template, i) + k < |flat| && t[k] == flat[TensorBegin(template, i) + k]
  {
    TensorInside(template, i);
    flat[TensorBegin(template, i)..TensorBegin(template, i) + |template[i]|]
  }

  /** Cut a flat tensor into tensors of the template's shapes. */
  function Unflatten(template: seq<Vec>, flat: Vec): (tensors: seq<Vec>)
    requires |flat| == |Gather(template)|
    ensures SameShapes(tensors, template) && forall i | 0 <= i < |template| :: tensors[i] == Piece(template, flat, i)
  {
    seq(|template|, i requires 0 <= i < |template| => Piece(template, flat, i))
  }

  lemma UnflattenGather(template: seq<Vec>, tensors: seq<Vec>)
    requires SameShapes(tensors, template)
    ensures |Gather(tensors)| == |Gather(template)| && Unflatten(template, Gather(tensors)) == tensors
  {
    ShapesTotal(tensors, template);
    forall i: nat | i < |template| ensures Piece(template, Gather(tensors), i) == tensors[i] {
      PieceOfGather(template, tensors, i);
    }
  }

  lemma PieceOfGather(template: seq<Vec>, tensors: seq<Vec>, i: nat)
    requires SameShapes(tensors, template) && i < |template| && |Gather(tensors)| == |Gather(template)|
    ensures Piece(template, Gather(tensors), i) == tensors[i]
  {
    var piece := Piece(template, Gather(tensors), i);
    assert TensorBegin(tensors, i) == TensorBegin(template, i) by { ShapesBegin(tensors, template, i); }
    forall k: nat | k < |piece| ensures piece[k] == tensors[i][k] {
      PieceEntry(tensors, i, k, TensorBegin(template, i) + k);
    }
  }

  lemma PieceEntry(tensors: seq<Vec>, i: nat, k: nat, p: nat)
    requires i < |tensors| && k < |tensors[i]| && p == TensorBegin(tensors, i) + k
    ensures p < |Gather(tensors)| && Gather(tensors)[p] == tensors[i][k]
  {
    ElementAt(tensors, i, p);
  }

  // ----- runs

  /** The optimizer, the group size, the initial parameters, and what each rank's backward pass computes
      at each step from the current parameters. */
  datatype Setup = Setup(o: Options, sqrt: real -> real, maxNorm: real, ranks: nat, initial: seq<Vec>,
    backward: (nat, nat, seq<Vec>) -> seq<Vec>)

  ghost predicate ShapesKept(s: Setup, k: nat, r: nat, tensors: seq<Vec>) {
    SameShapes(tensors, s.initial) ==> SameShapes(s.backward(k, r, tensors), s.initial)
  }

  ghost predicate ValidSetup(s: Setup) {
    && s.o.Valid() && IsRoot(s.sqrt) && s.ranks > 0
    && forall k: nat, r: nat, tensors: seq<Vec> :: ShapesKept(s, k, r, tensors)
  }

  ghost function GradAt(s: Setup, k: nat, tensors: seq<Vec>, r: nat): (grads: seq<Vec>)
    requires ValidSetup(s) && SameShapes(tensors, s.initial)
    ensures SameShapes(grads, s.initial)
  {
    assert ShapesKept(s, k, r, tensors);
    s.backward(k, r, tensors)
  }

  ghost function GradsAt(s: Setup, k: nat, tensors: seq<Vec>): (grads: seq<seq<Vec>>)
    requires ValidSetup(s) && SameShapes(tensors, s.initial)
    ensures |grads| == s.ranks && GroupShapes(grads, s.initial)
  {
    seq(s.ranks, r requires 0 <= r < s.ranks => GradAt(s, k, tensors, r))
  }

  ghost function ReferenceNext(s: Setup, k: nat, before: seq<seq<AdamCell>>): (states: seq<seq<AdamCell>>)
    requires ValidSetup(s) && SameSizes(before, s.initial)
    ensures SameSizes(states, s.initial)
  {
    ReferenceStep(s.o, s.sqrt, s.maxNorm, k + 1, before, MeanTensors(GradsAt(s, k, TensorParams(before)), s.initial))
  }

  /** The unsharded optimizer after `k` steps. */
  ghost function ReferenceRun(s: Setup, k: nat): (states: seq<seq<AdamCell>>)
    requires ValidSetup(s)
    ensures SameSizes(states, s.initial)
  {
    if k == 0 then seq(|s.initial|, i requires 0 <= i < |s.initial| => Fresh(s.initial[i]))
    else ReferenceNext(s, k - 1, ReferenceRun(s, k - 1))
  }

  /** What every rank gathers from the shards. */
  function Gathered(s: Setup, whole: seq<AdamCell>): (tensors: seq<Vec>)
    requires |whole| >= |Gather(s.initial)|
    ensures SameShapes(tensors, s.initial)
  {
    Unflatten(s.initial, Params(whole)[..|Gather(s.initial)|])
  }

  ghost function ShardedNext(s: Setup, k: nat, before: seq<AdamCell>): (whole: seq<AdamCell>)
    requires ValidSetup(s) && |before| == PaddedLength(|Gather(s.initial)|, s.ranks) >= |Gather(s.initial)|
    ensures |whole| == |before|
  {
    WholeStep(s.o, s.sqrt, s.maxNorm, k + 1, before,
              Reduced(PaddedFlats(GradsAt(s, k, Gathered(s, before)), s.initial, |before|), |before|, true))
  }

  /** All ranks' shards end to end after `k` steps. */
  ghost function ShardedStates(s: Setup, k: nat): (whole: seq<AdamCell>)
    requires ValidSetup(s)
    ensures |whole| == PaddedLength(|Gather(s.initial)|, s.ranks) >= |Gather(s.initial)|
  {
    ShardsCover(|Gather(s.initial)|, s.ranks);
    if k == 0 then Fresh(PaddedFlat(s.initial, s.ranks)) else ShardedNext(s, k - 1, ShardedStates(s, k - 1))
  }

  /** The shards, end to end and without their padding, are the reference states. */
  ghost predicate Agree(s: Setup, whole: seq<AdamCell>, states: seq<seq<AdamCell>>) {
    && |Gather(states)| == |Gather(s.initial)| <= |whole| && whole[..|Gather(s.initial)|] == Gather(states)
    && ZeroFrom(whole, |Gather(s.initial)|)
  }

  lemma InitialAgrees(s: Setup, n: nat)
    requires ValidSetup(s) && n == |Gather(s.initial)|
    ensures Agree(s, ShardedStates(s, 0), ReferenceRun(s, 0))
  {
    var states := ReferenceRun(s, 0);
    var start: (AdamCell, real) -> AdamCell := (c: AdamCell, g: real) => Cell(g, 0.0, 0.0);
    SizesTotal(states, s.initial);
    forall p: nat | p < n ensures ShardedStates(s, 0)[p] == Gather(states)[p] {
      GatherZip(start, states, s.initial, states, p);
    }
  }

  lemma ParametersAgree(s: Setup, whole: seq<AdamCell>, states: seq<seq<AdamCell>>)
    requires ValidSetup(s) && SameSizes(states, s.initial) && Agree(s, whole, states)
    ensures Gathered(s, whole) == TensorParams(states)
  {
    var n := |Gather(s.initial)|;
    assert Params(whole)[..n] == Params(whole[..n]);
    ParamsGather(states);
    UnflattenGather(s.initial, TensorParams(states));
  }

  lemma StepAgrees(s: Setup, k: nat, whole: seq<AdamCell>, states: seq<seq<AdamCell>>)
    requires ValidSetup(s) && SameSizes(states, s.initial) && Agree(s, whole, states)
    requires |whole| == PaddedLength(|Gather(s.initial)|, s.ranks)
    ensures Agree(s, ShardedNext(s, k, whole), ReferenceNext(s, k, states))
  {
    var n, grads := |Gather(s.initial)|, GradsAt(s, k, TensorParams(states));
    assert Gathered(s, whole) == TensorParams(states) by { ParametersAgree(s, whole, states); }
    MeanGathers(grads, s.initial, n, |whole|);
    StepRefines(s.o, s.sqrt, s.maxNorm, k + 1, whole, Reduced(PaddedFlats(grads, s.initial, |whole|), |whole|, true), n,
                states, MeanTensors(grads, s.initial));
  }

  lemma RunUnfolds(s: Setup, k: nat)
    requires ValidSetup(s)
    ensures ShardedStates(s, k + 1) == ShardedNext(s, k, ShardedStates(s, k))
    ensures ReferenceRun(s, k + 1) == ReferenceNext(s, k, ReferenceRun(s, k))
  {
  }

  lemma AgreeAlike(s: Setup, whole: seq<AdamCell>, states: seq<seq<AdamCell>>, whole': seq<AdamCell>,
                   states': seq<seq<AdamCell>>)
    requires whole == whole' && states == states' && Agree(s, whole, states)
    ensures Agree(s, whole', states')
  {
  }

  ghost predicate AgreeAfter(s: Setup, k: nat)
    requires ValidSetup(s)
  {
    Agree(s, ShardedStates(s, k), ReferenceRun(s, k))
  }

  lemma FirstAgrees(s: Setup, k: nat)
    requires ValidSetup(s) && k == 0
    ensures AgreeAfter(s, k)
  {
    InitialAgrees(s, |Gather(s.initial)|);
  }

  lemma NextAgrees(s: Setup, k: nat, next: nat)
    requires ValidSetup(s) && next == k + 1 && AgreeAfter(s, k)
    ensures AgreeAfter(s, next)
  {
    var whole, states := ShardedStates(s, k), ReferenceRun(s, k);
    StepAgrees(s, k, whole, states);
    RunUnfolds(s, k);
    AgreeAlike(s, ShardedNext(s, k, whole), ReferenceNext(s, k, states), ShardedStates(s, next), ReferenceRun(s, next));
  }

  lemma {:induction false} ByInduction(p: nat -> bool, k: nat)
    requires p(0) && forall i: nat :: p(i) ==> p(i + 1)
    ensures p(k)
  {
    if k > 0 { ByInduction(p, k - 1); }
  }

  lemma RunAgrees(s: Setup, k: nat)
    requires ValidSetup(s)
    ensures AgreeAfter(s, k)
  {
    var p := (i: nat) => AgreeAfter(s, i);
    assert p(0) by { FirstAgrees(s, 0); }
    forall i: nat | p(i) ensures p(i + 1) { NextAgrees(s, i, i + 1); }
    ByInduction(p, k);
  }

  /** After any number of steps the shards hold the reference states, padding is zero, and the parameters
      every rank gathers are the reference parameters. */
  lemma RunRefines(s: Setup, k: nat)
    requires ValidSetup(s)
    ensures Agree(s, ShardedStates(s, k), ReferenceRun(s, k))
    ensures Gathered(s, ShardedStates(s, k)) == TensorParams(ReferenceRun(s, k))
  {
    RunAgrees(s, k);
    ParametersAgree(s, ShardedStates(s, k), ReferenceRun(s, k));
  }
}

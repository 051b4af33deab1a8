/** Flat views: padded shards with their ranges. */
module FlatShards {
  import opened Chunks
  import opened Results
  import opened Sequences
  import opened Vectors

  // ----- positions in the concatenation of all tensors

  /** Where tensor `i` begins in the concatenation. */
  function TensorBegin<T>(tensors: seq<seq<T>>, i: nat): nat
    requires i <= |tensors|
  {
    if i == 0 then 0 else TensorBegin(tensors, i - 1) + |tensors[i - 1]|
  }

  lemma {:induction false} GatherTo<T>(tensors: seq<seq<T>>, i: nat)
    requires i <= |tensors|
    ensures |Gather(tensors[..i])| == TensorBegin(tensors, i)
    ensures i > 0 ==> Gather(tensors[..i]) == Gather(tensors[..i - 1]) + tensors[i - 1]
  {
    if i > 0 {
      assert tensors[..i][..i - 1] == tensors[..i - 1];
      GatherTo(tensors, i - 1);
    }
  }

  lemma TotalNumel<T>(tensors: seq<seq<T>>)
    ensures |Gather(tensors)| == TensorBegin(tensors, |tensors|)
  {
    GatherTo(tensors, |tensors|);
    assert tensors[..|tensors|] == tensors;
  }

  lemma {:induction false} GatherPrefix<T>(tensors: seq<seq<T>>, i: nat)
    requires i <= |tensors|
    ensures TensorBegin(tensors, i) <= |Gather(tensors)|
    ensures Gather(tensors[..i]) == Gather(tensors)[..TensorBegin(tensors, i)]
    decreases |tensors| - i
  {
    GatherTo(tensors, i);
    if i == |tensors| {
      assert tensors[..i] == tensors;
    } else {
      GatherPrefix(tensors, i + 1);
      GatherTo(tensors, i + 1);
    }
  }

  lemma TensorInside<T>(tensors: seq<seq<T>>, i: nat)
    requires i < |tensors|
    ensures TensorBegin(tensors, i) + |tensors[i]| <= |Gather(tensors)|
    ensures forall k: nat | k < |tensors[i]| :: Gather(tensors)[TensorBegin(tensors, i) + k] == tensors[i][k]
  {
    GatherTo(tensors, i);
    GatherTo(tensors, i + 1);
    GatherPrefix(tensors, i + 1);
    var flat, upTo := Gather(tensors), Gather(tensors[..i + 1]);
    forall k: nat | k < |tensors[i]| ensures flat[TensorBegin(tensors, i) + k] == tensors[i][k] {
      assert flat[TensorBegin(tensors, i) + k] == upTo[TensorBegin(tensors, i) + k];
    }
  }

  /** The element of the concatenation at a position inside tensor `i`. */
  lemma ElementAt<T>(tensors: seq<seq<T>>, i: nat, p: nat)
    requires i < |tensors| && TensorBegin(tensors, i) <= p < TensorBegin(tensors, i) + |tensors[i]|
    ensures p < |Gather(tensors)| && Gather(tensors)[p] == tensors[i][p - TensorBegin(tensors, i)]
  {
    TensorInside(tensors, i);
    assert p == TensorBegin(tensors, i) + (p - TensorBegin(tensors, i));
  }

  lemma {:induction false} TensorOrder<T>(tensors: seq<seq<T>>, i: nat, j: nat)
    requires i <= j <= |tensors|
    ensures TensorBegin(tensors, i) <= TensorBegin(tensors, j)
  {
    if i < j { TensorOrder(tensors, i, j - 1); }
  }

  // ----- one rank's shard

  /** `numel` elements of a parameter, from `parameterOffset`, stand in the shard from `shardOffset`. */
  datatype FlatRange = FlatRange(parameterIndex: nat, parameterOffset: nat, shardOffset: nat, numel: nat)

  datatype FlatParameterShard = FlatParameterShard(
    shard: Vec, originalNumel: nat, paddedNumel: nat, shardBegin: nat, shardEnd: nat, ranges: seq<FlatRange>)

  /** All tensors end to end, padded with zeros to a multiple of the number of ranks. */
  function PaddedFlat(tensors: seq<Vec>, ranks: nat): (flat: Vec)
    requires ranks > 0
    ensures |flat| == PaddedLength(|Gather(tensors)|, ranks) >= |Gather(tensors)|
    ensures forall p: nat | p < |flat| :: flat[p] == if p < |Gather(tensors)| then Gather(tensors)[p] else 0.0
  {
    ShardsCover(|Gather(tensors)|, ranks);
    Gather(tensors) + Zeros(PaddedLength(|Gather(tensors)|, ranks) - |Gather(tensors)|)
  }

  /** The elements of `s` at positions `begin` to `end`, as far as there are any. */
  function Clip(s: Vec, begin: nat, end: nat): (r: Vec)
    requires begin <= end
    ensures |r| == Min(end, |s|) - Min(begin, |s|)
  {
    s[Min(begin, |s|)..Min(end, |s|)]
  }

  /** The part of tensor `t`, which follows `before` elements, that lies between `begin` and `end`. */
  function Part(t: Vec, before: nat, begin: nat, end: nat): Vec {
    var overlapBegin, overlapEnd := Max(before, begin), Min(before + |t|, end);
    if overlapBegin < overlapEnd then t[overlapBegin - before..overlapEnd - before] else []
  }

  lemma ClipAppend(s: Vec, t: Vec, begin: nat, end: nat)
    requires begin <= end
    ensures Clip(s + t, begin, end) == Clip(s, begin, end) + Part(t, |s|, begin, end)
  {
    var all, first, part := Clip(s + t, begin, end), Clip(s, begin, end), Part(t, |s|, begin, end);
    assert |all| == |first| + |part|;
    forall k: nat | k < |all| ensures all[k] == (first + part)[k] { ClipEntry(s, t, begin, end, k); }
  }

  lemma ClipEntry(s: Vec, t: Vec, begin: nat, end: nat, k: nat)
    requires begin <= end && k < |Clip(s + t, begin, end)| == |Clip(s, begin, end)| + |Part(t, |s|, begin, end)|
    ensures Clip(s + t, begin, end)[k] == (Clip(s, begin, end) + Part(t, |s|, begin, end))[k]
  {
    var at := Min(begin, |s + t|) + k;
    assert Clip(s + t, begin, end)[k] == (s + t)[at];
    if at < |s| {
      assert Clip(s, begin, end)[k] == s[at];
    } else {
      assert (s + t)[at] == t[at - |s|];
    }
  }

  predicate Overlaps(tensors: seq<Vec>, i: nat, begin: int, end: int)
    requires i < |tensors|
  {
    Max(TensorBegin(tensors, i), begin) < Min(TensorBegin(tensors, i) + |tensors[i]|, end)
  }

  /** A range tells the truth: its elements stand in the shard where the concatenation puts them. */
  predicate RangeOk(tensors: seq<Vec>, begin: nat, range: FlatRange) {
    && range.numel > 0 && range.parameterIndex < |tensors|
    && range.parameterOffset + range.numel <= |tensors[range.parameterIndex]|
    && TensorBegin(tensors, range.parameterIndex) + range.parameterOffset == begin + range.shardOffset
  }

  function Covered(ranges: seq<FlatRange>): nat {
    if ranges == [] then 0 else ranges[|ranges| - 1].shardOffset + ranges[|ranges| - 1].numel
  }

  predicate Follows(ranges: seq<FlatRange>, k: nat)
    requires k < |ranges|
  {
    ranges[k].shardOffset == if k == 0 then 0 else ranges[k - 1].shardOffset + ranges[k - 1].numel
  }

  /** The ranges follow one another without gaps from the start of the shard. */
  predicate Chained(ranges: seq<FlatRange>) {
    forall k: nat | k < |ranges| :: Follows(ranges, k)
  }

  ghost predicate RangesOf(tensors: seq<Vec>, begin: nat, covered: nat, ranges: seq<FlatRange>) {
    && (forall k | 0 <= k < |ranges| :: RangeOk(tensors, begin, ranges[k]))
    && Chained(ranges) && Covered(ranges) == covered
  }

  lemma AppendRange(tensors: seq<Vec>, begin: nat, covered: nat, ranges: seq<FlatRange>, range: FlatRange)
    requires RangesOf(tensors, begin, covered, ranges) && RangeOk(tensors, begin, range) && range.shardOffset == covered
    ensures RangesOf(tensors, begin, covered + range.numel, ranges + [range])
  {
    forall k: nat | k < |ranges| + 1 ensures Follows(ranges + [range], k) {
      if k < |ranges| { assert Follows(ranges, k); }
    }
  }

  /** `from` to `to` is the overlap of tensor i, which begins at `before`, with the stretch. */
  predicate IsOverlap(tensors: seq<Vec>, i: nat, begin: nat, end: nat, before: nat, from: nat, to: nat) {
    && i < |tensors| && begin <= end && before == TensorBegin(tensors, i)
    && from == Max(before, begin) && to == Min(before + |tensors[i]|, end) && from < to
  }

  /** The overlap of tensor i continues the ranges of the tensors before it. */
  lemma NextRange(tensors: seq<Vec>, i: nat, begin: nat, end: nat, covered: nat, ranges: seq<FlatRange>, before: nat,
                  from: nat, to: nat)
    requires IsOverlap(tensors, i, begin, end, before, from, to) && covered == from - begin
    requires RangesOf(tensors, begin, covered, ranges)
    ensures RangesOf(tensors, begin, covered + (to - from), ranges
        + [FlatRange(i, from - before, from - begin, to - from)])
  {
    AppendRange(tensors, begin, covered, ranges, FlatRange(i, from - before, from - begin, to - from));
  }

  /** The valid part of a shard of a concatenation of length `n`. */
  function ValidNumel(n: nat, begin: nat, end: nat): nat
    requires begin <= end
  {
    Min(end, n) - Min(begin, n)
  }

  ghost predicate ShardOf(tensors: seq<Vec>, ranks: nat, rank: nat, s: FlatParameterShard) {
    && rank < ranks
    && s.originalNumel == |Gather(tensors)| && s.paddedNumel == PaddedLength(s.originalNumel, ranks)
    && s.shardBegin == rank * ShardSize(s.originalNumel, ranks)
    && s.shardEnd == s.shardBegin + ShardSize(s.originalNumel, ranks) <= s.paddedNumel
    && s.shard == PaddedFlat(tensors, ranks)[s.shardBegin..s.shardEnd]
    && RangesOf(tensors, s.shardBegin, ValidNumel(s.originalNumel, s.shardBegin, s.shardEnd), s.ranges)
  }

  lemma ShardInside(n: nat, ranks: nat, rank: nat)
    requires rank < ranks
    ensures rank * ShardSize(n, ranks) + ShardSize(n, ranks) <= PaddedLength(n, ranks)
  {
    ShardsCover(n, ranks);
    MulAtLeast(ranks, rank + 1, ShardSize(n, ranks));
  }

  /** The first `i` tensors' part of the stretch, and the ranges that say where it comes from. */
  ghost predicate CutTo(tensors: seq<Vec>, i: nat, begin: nat, end: nat, shard: Vec, ranges: seq<FlatRange>)
    requires i <= |tensors| && begin <= end
  {
    shard == Clip(Gather(tensors[..i]), begin, end) && RangesOf(tensors, begin, |shard|, ranges)
  }

  lemma CutTensor(tensors: seq<Vec>, i: nat, begin: nat, end: nat, shard: Vec, ranges: seq<FlatRange>, before: nat,
                  from: nat, to: nat)
    requires IsOverlap(tensors, i, begin, end, before, from, to) && CutTo(tensors, i, begin, end, shard, ranges)
    ensures CutTo(tensors, i + 1, begin, end, shard + tensors[i][from - before..to - before],
                  ranges + [FlatRange(i, from - before, from - begin, to - from)])
  {
    hide Gather, RangesOf;
    GatherTo(tensors, i);
    GatherTo(tensors, i + 1);
    ClipAppend(Gather(tensors[..i]), tensors[i], begin, end);
    NextRange(tensors, i, begin, end, |shard|, ranges, before, from, to);
  }

  lemma SkipTensor(tensors: seq<Vec>, i: nat, begin: nat, end: nat, shard: Vec, ranges: seq<FlatRange>)
    requires i < |tensors| && begin <= end && CutTo(tensors, i, begin, end, shard, ranges)
    requires !Overlaps(tensors, i, begin, end)
    ensures CutTo(tensors, i + 1, begin, end, shard, ranges)
  {
    GatherTo(tensors, i);
    GatherTo(tensors, i + 1);
    ClipAppend(Gather(tensors[..i]), tensors[i], begin, end);
  }

  lemma CutNone(tensors: seq<Vec>, begin: nat, end: nat)
    requires begin <= end
    ensures CutTo(tensors, 0, begin, end, [], [])
  {
  }

  lemma CutAll(tensors: seq<Vec>, begin: nat, end: nat, shard: Vec, ranges: seq<FlatRange>)
    requires begin <= end && CutTo(tensors, |tensors|, begin, end, shard, ranges)
    ensures shard == Clip(Gather(tensors), begin, end) && RangesOf(tensors, begin, |shard|, ranges)
  {
    assert tensors[..|tensors|] == tensors;
  }

  /** Append the overlap of one tensor, if there is any. */
  method CutOne(tensors: seq<Vec>, i: nat, begin: nat, end: nat, tensorBegin: nat, shard: Vec, ranges: seq<FlatRange>)
    returns (shard': Vec, ranges': seq<FlatRange>)
    requires i < |tensors| && begin <= end && tensorBegin == TensorBegin(tensors, i)
    requires CutTo(tensors, i, begin, end, shard, ranges)
    ensures CutTo(tensors, i + 1, begin, end, shard', ranges')
  {
    var overlapBegin, overlapEnd := Max(tensorBegin, begin), Min(tensorBegin + |tensors[i]|, end);
    if overlapBegin < overlapEnd {
      CutTensor(tensors, i, begin, end, shard, ranges, tensorBegin, overlapBegin, overlapEnd);
      shard' := shard + tensors[i][overlapBegin - tensorBegin..overlapEnd - tensorBegin];
      ranges' := ranges + [FlatRange(i, overlapBegin - tensorBegin, overlapBegin - begin, overlapEnd - overlapBegin)];
    } else {
      SkipTensor(tensors, i, begin, end, shard, ranges);
      shard', ranges' := shard, ranges;
    }
  }

  /** The overlap of every tensor in turn with the stretch from `begin` to `end`. */
  method CutShard(tensors: seq<Vec>, begin: nat, end: nat) returns (shard: Vec, ranges: seq<FlatRange>)
    requires begin <= end
    ensures shard == Clip(Gather(tensors), begin, end) && RangesOf(tensors, begin, |shard|, ranges)
  {
    shard, ranges := [], [];
    CutNone(tensors, begin, end);
    var tensorBegin, i := 0, 0;
    while i < |tensors|
      invariant i <= |tensors| && tensorBegin == TensorBegin(tensors, i) && CutTo(tensors, i, begin, end, shard, ranges)
    {
      shard, ranges := CutOne(tensors, i, begin, end, tensorBegin, shard, ranges);
      tensorBegin := tensorBegin + |tensors[i]|;
      i := i + 1;
    }
    CutAll(tensors, begin, end, shard, ranges);
  }

  /** Cut one rank's shard out of the tensor list, tensor by tensor, and pad it. */
  method FlattenShard(tensors: seq<Vec>, ranks: int, rank: int) returns (r: Result<FlatParameterShard>)
    ensures r.Ok? <==> 0 <= rank < ranks
    ensures r.Ok? ==> ShardOf(tensors, ranks, rank, r.value)
  {
    if ranks <= 0 || rank < 0 || rank >= ranks {
      return Err("invalid data parallel rank/world size");
    }
    var originalNumel := |Gather(tensors)|;
    var size := ShardSize(originalNumel, ranks);
    ShardInside(originalNumel, ranks, rank);
    var begin: nat := rank * size;
    var end := begin + size;
    var valid, ranges := CutShard(tensors, begin, end);
    var validNumel := Max(0, Min(end, originalNumel) - Min(begin, originalNumel));
    ShardTail(tensors, ranks, begin, end);
    return Ok(FlatParameterShard(valid + Zeros(size - validNumel), originalNumel, PaddedLength(originalNumel, ranks),
      begin, end, ranges));
  }

  lemma ShardTail(tensors: seq<Vec>, ranks: nat, begin: nat, end: nat)
    requires ranks > 0 && begin <= end <= PaddedLength(|Gather(tensors)|, ranks)
    ensures var n := |Gather(tensors)|;
            PaddedFlat(tensors, ranks)[begin..end] == Clip(Gather(tensors), begin, end)
              + Zeros(end - begin - ValidNumel(n, begin, end))
  {
    var n := |Gather(tensors)|;
    var s, t := PaddedFlat(tensors, ranks)[begin..end], Clip(Gather(tensors), begin, end)
      + Zeros(end - begin - ValidNumel(n, begin, end));
    assert |s| == |t|;
    forall k | 0 <= k < |s| ensures s[k] == t[k] {
      assert s[k] == PaddedFlat(tensors, ranks)[begin + k];
    }
  }

  // ----- a padded stretch of the gradients

  /** A parameter and, unless the backward pass did not reach it, its gradient. */
  datatype Parameter = Parameter(value: Vec, grad: Option<Vec>)

  predicate GradientShapes(parameters: seq<Parameter>) {
    forall i | 0 <= i < |parameters| :: parameters[i].grad.Some? ==> |parameters[i].grad.value| == |parameters[i].value|
  }

  /** The gradients, zero where there is none. */
  function Gradients(parameters: seq<Parameter>): (gradients: seq<Vec>)
    requires GradientShapes(parameters)
    ensures |gradients| == |parameters|
    ensures forall i | 0 <= i < |parameters| :: |gradients[i]| == |parameters[i].value|
  {
    seq(|parameters|, i requires 0 <= i < |parameters| =>
      if parameters[i].grad.Some? then parameters[i].grad.value else Zeros(|parameters[i].value|))
  }

  /** Parameter i, if it overlaps the stretch, has its gradient. */
  ghost predicate Present(parameters: seq<Parameter>, begin: int, end: int, i: nat)
    requires GradientShapes(parameters) && i < |parameters|
  {
    Overlaps(Gradients(parameters), i, begin, end) ==> parameters[i].grad.Some?
  }

  ghost predicate GradientsPresent(parameters: seq<Parameter>, begin: int, end: int, upTo: nat)
    requires GradientShapes(parameters) && upTo <= |parameters|
  {
    forall i: nat | i < upTo :: Present(parameters, begin, end, i)
  }

  /** `out` holds the flat gradients from `begin`, zero from position `bound` on. */
  predicate FilledTo(flat: Vec, begin: nat, bound: nat, out: Vec) {
    forall k: nat | k < |out| :: out[k] == if begin + k < bound && begin + k < |flat| then flat[begin + k] else 0.0
  }

  lemma FilledNone(flat: Vec, begin: nat, out: Vec)
    requires out == Zeros(|out|)
    ensures forall bound: nat | bound <= begin :: FilledTo(flat, begin, bound, out)
  {
  }

  /** Writing tensor i's part extends what is filled to the end of the tensor. */
  lemma CopyPart(tensors: seq<Vec>, i: nat, begin: nat, end: nat, out: Vec, before: nat, from: nat, to: nat)
    requires IsOverlap(tensors, i, begin, end, before, from, to) && end <= |Gather(tensors)| && |out| >= end - begin
    requires FilledTo(Gather(tensors), begin, Min(before, end), out)
    ensures FilledTo(Gather(tensors), begin, Min(before + |tensors[i]|, end),
        CopyInto(out, from - begin, tensors[i][from - before..to - before]))
  {
    var flat, next := Gather(tensors), CopyInto(out, from - begin, tensors[i][from - before..to - before]);
    forall k: nat | k < |next|
      ensures next[k] == if begin + k < to && begin + k < |flat| then flat[begin + k] else 0.0 {
      if from <= begin + k < to { ElementAt(tensors, i, begin + k); }
    }
  }

  /** A tensor of zeros, or one outside the stretch, needs no writing. */
  lemma SkipPart(tensors: seq<Vec>, i: nat, begin: nat, end: nat, out: Vec, before: nat)
    requires i < |tensors| && begin <= end <= |Gather(tensors)| && before == TensorBegin(tensors, i)
    requires Overlaps(tensors, i, begin, end) ==> tensors[i] == Zeros(|tensors[i]|)
    requires FilledTo(Gather(tensors), begin, Min(before, end), out)
    ensures FilledTo(Gather(tensors), begin, Min(before + |tensors[i]|, end), out)
  {
    var flat, to := Gather(tensors), Min(before + |tensors[i]|, end);
    forall k: nat | k < |out| ensures out[k] == if begin + k < to && begin + k < |flat| then flat[begin + k] else 0.0 {
      if before <= begin + k < to { ElementAt(tensors, i, begin + k); }
    }
  }

  /** No tensor after the first `i` reaches a stretch that ends before them. */
  lemma LaterDoNotOverlap(tensors: seq<Vec>, i: nat, begin: int, end: int)
    requires i <= |tensors| && end <= TensorBegin(tensors, i)
    ensures forall j: nat | i <= j < |tensors| :: !Overlaps(tensors, j, begin, end)
  {
    forall j: nat | i <= j < |tensors|
      ensures TensorBegin(tensors, i) <= TensorBegin(tensors, j)
    {
      TensorOrder(tensors, i, j);
    }
  }

  lemma NoneOverlapBeyond(tensors: seq<Vec>, begin: int, end: int)
    requires end <= begin || |Gather(tensors)| <= begin
    ensures forall j: nat | j < |tensors| :: !Overlaps(tensors, j, begin, end)
  {
    forall j: nat | j < |tensors| ensures !Overlaps(tensors, j, begin, end) { TensorInside(tensors, j); }
  }

  method FlatGradientRangePadded(parameters: seq<Parameter>, paddedNumel: nat, begin: int, numel: int,
                                 requireGrad: bool) returns (r: Result<Vec>)
    requires GradientShapes(parameters)
    ensures r.Ok? <==>
              && 0 <= begin && 0 <= numel && begin + numel <= paddedNumel
              && (requireGrad ==>
                GradientsPresent(parameters, begin, Min(begin + numel, |Gather(Gradients(parameters))|), |parameters|))
    ensures r.Ok? ==> |r.value| == numel && FilledTo(Gather(Gradients(parameters)), begin, begin + numel, r.value)
  {
    if begin < 0 || numel < 0 || begin + numel > paddedNumel {
      return Err("flat_gradient_range_padded out of bounds");
    }
    var originalNumel := |Gather(Gradients(parameters))|;
    if begin >= originalNumel {
      NoneOverlapBeyond(Gradients(parameters), begin, Min(begin + numel, originalNumel));
      return Ok(Zeros(numel));
    }
    r := FillGradients(parameters, begin, Min(begin + numel, originalNumel), numel, requireGrad);
  }

  /** Copy one parameter's overlap with the stretch. */
  method PutGradient(parameters: seq<Parameter>, i: nat, parameterBegin: nat, begin: nat, rangeEnd: nat, out: Vec,
                     requireGrad: bool) returns (r: Result<Vec>)
    requires GradientShapes(parameters) && i < |parameters| && parameterBegin == TensorBegin(Gradients(parameters), i)
    requires begin <= rangeEnd <= |Gather(Gradients(parameters))| && rangeEnd - begin <= |out|
    requires FilledTo(Gather(Gradients(parameters)), begin, Min(parameterBegin, rangeEnd), out)
    ensures r.Ok? <==> requireGrad ==> Present(parameters, begin, rangeEnd, i)
    ensures r.Ok? ==> |r.value| == |out|
    ensures r.Ok? ==> FilledTo(Gather(Gradients(parameters)), begin,
        Min(TensorBegin(Gradients(parameters), i + 1), rangeEnd), r.value)
  {
    ghost var gradients := Gradients(parameters);
    var overlapBegin, overlapEnd := Max(parameterBegin, begin), Min(parameterBegin + |parameters[i].value|, rangeEnd);
    if overlapBegin >= overlapEnd {
      SkipPart(gradients, i, begin, rangeEnd, out, parameterBegin);
      return Ok(out);
    }
    if parameters[i].grad.None? {
      if requireGrad { return Err("missing parameter gradient"); }
      SkipPart(gradients, i, begin, rangeEnd, out, parameterBegin);
      return Ok(out);
    }
    CopyPart(gradients, i, begin, rangeEnd, out, parameterBegin, overlapBegin, overlapEnd);
    return Ok(CopyInto(out, overlapBegin - begin,
      parameters[i].grad.value[overlapBegin - parameterBegin..overlapEnd - parameterBegin]));
  }

  /** Copy every parameter's overlap with the stretch into a tensor of zeros. */
  method FillGradients(parameters: seq<Parameter>, begin: nat, rangeEnd: nat, numel: nat, requireGrad: bool)
    returns (r: Result<Vec>)
    requires GradientShapes(parameters) && begin <= rangeEnd <= |Gather(Gradients(parameters))|
    requires rangeEnd - begin <= numel
    ensures r.Ok? <==> requireGrad ==> GradientsPresent(parameters, begin, rangeEnd, |parameters|)
    ensures r.Ok? ==> |r.value| == numel && FilledTo(Gather(Gradients(parameters)), begin, rangeEnd, r.value)
  {
    hide Gather, FilledTo;
    ghost var gradients := Gradients(parameters);
    var out := Zeros(numel);
    FilledNone(Gather(gradients), begin, out);
    var parameterBegin, i := 0, 0;
    while i < |parameters|
      invariant i <= |parameters| && parameterBegin == TensorBegin(gradients, i) && |out| == numel
      invariant FilledTo(Gather(gradients), begin, Min(parameterBegin, rangeEnd), out)
      invariant requireGrad ==> GradientsPresent(parameters, begin, rangeEnd, i)
    {
      var next := PutGradient(parameters, i, parameterBegin, begin, rangeEnd, out, requireGrad);
      if next.Err? { return next; }
      out := next.value;
      parameterBegin := parameterBegin + |parameters[i].value|;
      i := i + 1;
      if parameterBegin >= rangeEnd {
        LaterArePresent(parameters, i, begin, rangeEnd);
        return Ok(out);
      }
    }
    TotalNumel(gradients);
    return Ok(out);
  }

  lemma LaterArePresent(parameters: seq<Parameter>, i: nat, begin: int, end: int)
    requires GradientShapes(parameters) && i <= |parameters| && end <= TensorBegin(Gradients(parameters), i)
    ensures GradientsPresent(parameters, begin, end, i) <==> GradientsPresent(parameters, begin, end, |parameters|)
  {
    LaterDoNotOverlap(Gradients(parameters), i, begin, end);
    forall j: nat | i <= j < |parameters| ensures Present(parameters, begin, end, j) {
      assert !Overlaps(Gradients(parameters), j, begin, end);
    }
  }
}

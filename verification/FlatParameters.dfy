/** Writing flat stretches back into the parameters. */
module FlatParameters {
  import opened Chunks
  import opened FlatShards
  import opened Results
  import opened Sequences
  import opened Vectors

  // ----- updating one tensor

  predicate SameShapes(a: seq<Vec>, b: seq<Vec>) {
    |a| == |b| && forall i | 0 <= i < |a| :: |a[i]| == |b[i]|
  }

  lemma {:induction false} ShapesBegin(a: seq<Vec>, b: seq<Vec>, i: nat)
    requires SameShapes(a, b) && i <= |a|
    ensures TensorBegin(a, i) == TensorBegin(b, i)
  {
    if i > 0 { ShapesBegin(a, b, i - 1); }
  }

  lemma ShapesTotal(a: seq<Vec>, b: seq<Vec>)
    requires SameShapes(a, b)
    ensures |Gather(a)| == |Gather(b)|
  {
    ShapesBegin(a, b, |a|);
    TotalNumel(a);
    TotalNumel(b);
  }

  lemma {:induction false} UpdateEntry(tensors: seq<Vec>, i: nat, t: Vec, p: nat)
    requires i < |tensors| && |t| == |tensors[i]| && p < |Gather(tensors)|
    ensures |Gather(tensors[i := t])| == |Gather(tensors)|
    ensures Gather(tensors[i := t])[p]
         == if TensorBegin(tensors, i) <= p < TensorBegin(tensors, i) + |t| then t[p - TensorBegin(tensors, i)]
           else Gather(tensors)[p]
  {
    var n := |tensors| - 1;
    ShapesTotal(tensors[i := t], tensors);
    GatherTo(tensors, n);
    if i < n {
      assert tensors[i := t][..n] == tensors[..n][i := t];
      BeginOfPrefix(tensors, n, i);
      TensorInside(tensors[..n], i);
      ShapesTotal(tensors[..n][i := t], tensors[..n]);
      if p < |Gather(tensors[..n])| { UpdateEntry(tensors[..n], i, t, p); }
    } else {
      assert tensors[i := t][..n] == tensors[..n];
    }
  }

  lemma {:induction false} BeginOfPrefix(tensors: seq<Vec>, n: nat, i: nat)
    requires i <= n <= |tensors|
    ensures TensorBegin(tensors[..n], i) == TensorBegin(tensors, i)
  {
    if i > 0 { BeginOfPrefix(tensors, n, i - 1); }
  }

  /** Positions `begin` onwards replaced by `slice`, as far as it goes and up to `bound`. */
  function Patch(flat: Vec, begin: nat, slice: Vec, bound: int): (r: Vec)
    ensures |r| == |flat|
    ensures forall p: nat | p < |flat| ::
        r[p] == if begin <= p < begin + |slice| && p < bound then slice[p - begin] else flat[p]
  {
    seq(|flat|, p requires 0 <= p < |flat| => if begin <= p < begin + |slice| && p < bound then slice[p - begin]
      else flat[p])
  }

  /** Copying a part into tensor i patches the concatenation where the part comes to stand. */
  lemma CopyPatches(tensors: seq<Vec>, i: nat, offset: nat, part: Vec, begin: nat)
    requires i < |tensors| && offset + |part| <= |tensors[i]| && begin == TensorBegin(tensors, i) + offset
    ensures SameShapes(tensors[i := CopyInto(tensors[i], offset, part)], tensors)
    ensures Gather(tensors[i := CopyInto(tensors[i], offset, part)])
        == Patch(Gather(tensors), begin, part, |Gather(tensors)|)
  {
    var next, flat := Gather(tensors[i := CopyInto(tensors[i], offset, part)]), Gather(tensors);
    var patched := Patch(flat, begin, part, |flat|);
    assert |next| == |patched| by { ShapesTotal(tensors[i := CopyInto(tensors[i], offset, part)], tensors); }
    forall p: nat | p < |next| ensures next[p] == patched[p] {
      CopyPatchEntry(tensors, i, offset, part, begin, p);
    }
  }

  lemma CopyPatchEntry(tensors: seq<Vec>, i: nat, offset: nat, part: Vec, begin: nat, p: nat)
    requires i < |tensors| && offset + |part| <= |tensors[i]| && begin == TensorBegin(tensors, i) + offset
    requires p < |Gather(tensors)|
    ensures |Gather(tensors[i := CopyInto(tensors[i], offset, part)])| == |Gather(tensors)|
    ensures Gather(tensors[i := CopyInto(tensors[i], offset, part)])[p]
        == if begin <= p < begin + |part| then part[p - begin] else Gather(tensors)[p]
  {
    var at := TensorBegin(tensors, i);
    UpdateEntry(tensors, i, CopyInto(tensors[i], offset, part), p);
    if at <= p < at + |tensors[i]| { ElementAt(tensors, i, p); }
  }

  /** Patching up to a bound and then the next piece is patching up to the end of that piece. */
  lemma PatchOn(flat: Vec, begin: nat, slice: Vec, bound: nat, from: nat, to: nat)
    requires begin <= from <= to <= begin + |slice| && from == Max(bound, begin) && to <= |flat|
    ensures Patch(Patch(flat, begin, slice, bound), from, slice[from - begin..to - begin], |flat|)
        == Patch(flat, begin, slice, to)
  {
  }

  lemma PatchNothing(flat: Vec, begin: nat, slice: Vec, bound: int, next: int)
    requires bound <= next && Max(bound, begin) >= Min(next, begin + |slice|)
    ensures Patch(flat, begin, slice, bound) == Patch(flat, begin, slice, next)
  {
  }

  lemma PatchEnds(flat: Vec, begin: nat, slice: Vec, bound: int, next: int)
    requires bound <= next && (bound == next || bound >= begin + |slice| || bound >= |flat|)
    ensures Patch(flat, begin, slice, bound) == Patch(flat, begin, slice, next)
  {
  }

  // ----- the parameters of one rank

  class ParameterList {
    var tensors: seq<Vec>

    constructor (initial: seq<Vec>)
      ensures tensors == initial
    {
      tensors := initial;
    }

    /** Write the part of the slice that overlaps parameter `i`, if any. */
    method ApplyOne(slice: Vec, globalBegin: nat, originalNumel: nat, i: nat, parameterBegin: nat,
                    ghost before: seq<Vec>)
      requires i < |tensors| && AppliedTo(before, globalBegin, slice, Min(originalNumel, parameterBegin), tensors)
      requires parameterBegin == TensorBegin(before, i)
      modifies this
      ensures AppliedTo(before, globalBegin, slice, Min(originalNumel, parameterBegin + |old(tensors[i])|), tensors)
    {
      hide Gather, Patch, TensorBegin;
      var parameterEnd := parameterBegin + |tensors[i]|;
      var overlapBegin := Max(parameterBegin, globalBegin);
      var overlapEnd := Min(parameterEnd, Min(globalBegin + |slice|, originalNumel));
      if overlapBegin < overlapEnd {
        ApplyOverlap(before, i, globalBegin, slice, originalNumel, tensors, parameterBegin, overlapBegin, overlapEnd,
                     Min(originalNumel, parameterEnd));
        var part := slice[overlapBegin - globalBegin..overlapEnd - globalBegin];
        tensors := tensors[i := CopyInto(tensors[i], overlapBegin - parameterBegin, part)];
      } else {
        ApplySkip(before, i, globalBegin, slice, originalNumel, tensors, parameterBegin,
          Min(originalNumel, parameterEnd));
      }
    }

    /** Write `slice` at `globalBegin` of the concatenation, parameter by parameter. */
    method ApplyRange(slice: Vec, globalBegin: nat, originalNumel: nat)
      modifies this
      ensures SameShapes(tensors, old(tensors))
      ensures Gather(tensors) == Patch(Gather(old(tensors)), globalBegin, slice, originalNumel)
    {
      hide Gather, Patch, TensorBegin, Min, Max;
      ghost var before := tensors;
      ApplyNone(before, globalBegin, slice, originalNumel);
      if globalBegin >= originalNumel {
        return;
      }
      var parameterBegin: nat, i := 0, 0;
      while i < |tensors|
        invariant i <= |before| == |tensors| && parameterBegin == TensorBegin(before, i)
        invariant AppliedTo(before, globalBegin, slice, Min(originalNumel, parameterBegin), tensors)
      {
        TensorNext(before, i);
        assert |tensors[i]| == |before[i]|;
        var parameterEnd := parameterBegin + |tensors[i]|;
        ApplyOne(slice, globalBegin, originalNumel, i, parameterBegin, before);
        parameterBegin := parameterEnd;
        i := i + 1;
        if parameterBegin >= globalBegin + |slice| {
          break;
        }
      }
      ApplyAll(before, i, globalBegin, slice, originalNumel, tensors);
    }

    /** Copy every range of a shard to its parameter; a range that does not fit is an error. */
    method ApplyShard(s: FlatParameterShard) returns (r: Result<()>)
      modifies this
      ensures SameShapes(tensors, old(tensors))
      ensures r.Ok? <==> forall k | 0 <= k < |s.ranges| :: RangeFits(old(tensors), |s.shard|, s.ranges[k])
      ensures InOrder(old(tensors), s) ==> r.Ok? && RangedTo(old(tensors), |s.ranges|, s, tensors)
    {
      ghost var before := tensors;
      RangedNone(before, s);
      var i := 0;
      while i < |s.ranges|
        invariant i <= |s.ranges| && RangesDone(before, i, s, tensors)
      {
        var range := s.ranges[i];
        RangesStep(before, i, s, tensors, range);
        if range.parameterIndex >= |tensors| || range.shardOffset + range.numel > |s.shard| {
          return Err("invalid flat parameter shard range");
        }
        if range.parameterOffset + range.numel > |tensors[range.parameterIndex]| {
          return Err("flat parameter shard range exceeds parameter");
        }
        tensors := tensors[range.parameterIndex := CopyInto(tensors[range.parameterIndex], range.parameterOffset,
                                                            s.shard[range.shardOffset..range.shardOffset
                                                              + range.numel])];
        i := i + 1;
      }
      return Ok(());
    }

    /** Copy the whole concatenation back. */
    method ApplyFull(flat: Vec, originalNumel: nat) returns (r: Result<()>)
      modifies this
      ensures r.Ok? <==> originalNumel <= |flat| && originalNumel == |Gather(old(tensors))|
      ensures r.Err? ==> tensors == old(tensors)
      ensures r.Ok? ==> SameShapes(tensors, old(tensors)) && Gather(tensors) == flat[..originalNumel]
    {
      if originalNumel > |flat| {
        return Err("apply_full_flat_parameters original_numel out of range");
      }
      if originalNumel != |Gather(tensors)| {
        return Err("apply_full_flat_parameters original_numel does not match parameters");
      }
      ghost var before := tensors;
      var offset, i := 0, 0;
      while i < |tensors|
        invariant i <= |before| == |tensors| && SameShapes(tensors, before)
        invariant offset == TensorBegin(before, i) <= originalNumel
        invariant Gather(tensors[..i]) == flat[..offset]
      {
        var numel := |tensors[i]|;
        TensorInside(before, i);
        ghost var done := tensors[..i];
        tensors := tensors[i := flat[offset..offset + numel]];
        assert tensors[..i + 1] == done + [flat[offset..offset + numel]];
        assert (done + [flat[offset..offset + numel]])[..i] == done;
        offset := offset + numel;
        i := i + 1;
      }
      assert tensors[..i] == tensors;
      TotalNumel(before);
      return Ok(());
    }
  }

  predicate RangeFits(tensors: seq<Vec>, shard: nat, range: FlatRange) {
    && range.parameterIndex < |tensors| && range.shardOffset + range.numel <= shard
    && range.parameterOffset + range.numel <= |tensors[range.parameterIndex]|
  }

  /** The ranges are those of a shard of these tensors. */
  ghost predicate InOrder(tensors: seq<Vec>, s: FlatParameterShard) {
    RangesOf(tensors, s.shardBegin, Covered(s.ranges), s.ranges) && Covered(s.ranges) <= |s.shard|
  }

  /** The first `i` ranges have been copied: the shard is written up to where they end. */
  ghost predicate RangedTo(before: seq<Vec>, i: nat, s: FlatParameterShard, now: seq<Vec>)
    requires i <= |s.ranges|
  {
    SameShapes(now, before) && Gather(now) == Patch(Gather(before), s.shardBegin, s.shard, s.shardBegin
      + CoveredBy(s.ranges, i))
  }

  ghost predicate RangesDone(before: seq<Vec>, i: nat, s: FlatParameterShard, now: seq<Vec>)
    requires i <= |s.ranges|
  {
    && SameShapes(now, before) && (forall k | 0 <= k < i :: RangeFits(before, |s.shard|, s.ranges[k]))
    && (InOrder(before, s) ==> RangedTo(before, i, s, now))
  }

  lemma RangedNone(before: seq<Vec>, s: FlatParameterShard)
    ensures RangesDone(before, 0, s, before)
  {
  }

  lemma RangesStep(before: seq<Vec>, i: nat, s: FlatParameterShard, now: seq<Vec>, range: FlatRange)
    requires i < |s.ranges| && range == s.ranges[i] && RangesDone(before, i, s, now)
    ensures RangeFits(now, |s.shard|, range) <==> RangeFits(before, |s.shard|, range)
    ensures InOrder(before, s) ==> RangeFits(before, |s.shard|, range)
    ensures RangeFits(now, |s.shard|, range) ==>
              RangesDone(before, i + 1, s, now[range.parameterIndex :=
                CopyInto(now[range.parameterIndex], range.parameterOffset,
                  s.shard[range.shardOffset..range.shardOffset + range.numel])])
  {
    if InOrder(before, s) {
      RangedFits(before, i, s);
      RangedOne(before, i, s, now, range);
    }
  }

  /** Where the ranges before the i-th end. */
  function CoveredBy(ranges: seq<FlatRange>, i: nat): nat
    requires i <= |ranges|
  {
    if i == 0 then 0 else ranges[i - 1].shardOffset + ranges[i - 1].numel
  }

  lemma {:induction false} CoveredMonotone(ranges: seq<FlatRange>, i: nat, j: nat)
    requires Chained(ranges) && i <= j <= |ranges|
    ensures CoveredBy(ranges, i) <= CoveredBy(ranges, j)
  {
    if i < j {
      CoveredMonotone(ranges, i, j - 1);
      assert Follows(ranges, j - 1);
    }
  }

  lemma RangedFits(before: seq<Vec>, i: nat, s: FlatParameterShard)
    requires InOrder(before, s) && i < |s.ranges|
    ensures RangeFits(before, |s.shard|, s.ranges[i])
    ensures s.ranges[i].shardOffset == CoveredBy(s.ranges, i)
  {
    CoveredMonotone(s.ranges, i + 1, |s.ranges|);
    assert Follows(s.ranges, i);
    assert RangeOk(before, s.shardBegin, s.ranges[i]);
  }

  lemma RangedOne(before: seq<Vec>, i: nat, s: FlatParameterShard, now: seq<Vec>, range: FlatRange)
    requires InOrder(before, s) && i < |s.ranges| && range == s.ranges[i] && RangedTo(before, i, s, now)
    requires RangeFits(before, |s.shard|, range)
    ensures RangedTo(before, i + 1, s, now[range.parameterIndex :=
              CopyInto(now[range.parameterIndex], range.parameterOffset,
                s.shard[range.shardOffset..range.shardOffset + range.numel])])
  {
    RangedFits(before, i, s);
    assert RangeOk(before, s.shardBegin, range);
    var from := s.shardBegin + range.shardOffset;
    assert s.shard[from - s.shardBegin..from + range.numel - s.shardBegin]
      == s.shard[range.shardOffset..range.shardOffset + range.numel];
    PatchRange(before, now, s.shardBegin, s.shard, range.parameterIndex, range.parameterOffset, from, from
      + range.numel);
  }

  lemma PatchRange(before: seq<Vec>, now: seq<Vec>, begin: nat, shard: Vec, i: nat, offset: nat, from: nat, to: nat)
    requires SameShapes(now, before) && begin <= from <= to <= begin + |shard|
    requires Gather(now) == Patch(Gather(before), begin, shard, from)
    requires i < |before| && offset + (to - from) <= |before[i]| && TensorBegin(before, i) + offset == from
    ensures SameShapes(now[i := CopyInto(now[i], offset, shard[from - begin..to - begin])], before)
    ensures Gather(now[i := CopyInto(now[i], offset, shard[from - begin..to - begin])])
        == Patch(Gather(before), begin, shard, to)
  {
    var part, flat := shard[from - begin..to - begin], Gather(before);
    assert to <= |flat| by { TensorInside(before, i); }
    ShapesBegin(now, before, i);
    CopyPatches(now, i, offset, part, from);
    PatchOn(flat, begin, shard, from, from, to);
  }

  /** The slice has been written as far as position `upTo`. */
  ghost predicate AppliedTo(before: seq<Vec>, begin: nat, slice: Vec, upTo: int, now: seq<Vec>) {
    SameShapes(now, before) && Gather(now) == Patch(Gather(before), begin, slice, upTo)
  }

  lemma TensorNext(before: seq<Vec>, i: nat)
    requires i < |before|
    ensures TensorBegin(before, i + 1) == TensorBegin(before, i) + |before[i]|
  {
  }

  lemma ApplyNone(before: seq<Vec>, begin: nat, slice: Vec, bound: nat)
    ensures TensorBegin(before, 0) == 0 && AppliedTo(before, begin, slice, Min(bound, 0), before)
    ensures begin >= bound ==> Gather(before) == Patch(Gather(before), begin, slice, bound)
  {
  }

  lemma ApplyOverlap(before: seq<Vec>, i: nat, begin: nat, slice: Vec, bound: nat, now: seq<Vec>, at: nat, from: nat,
                     to: nat, next: nat)
    requires i < |before| && at == TensorBegin(before, i) && AppliedTo(before, begin, slice, Min(bound, at), now)
    requires from == Max(at, begin) && to == Min(at + |before[i]|, Min(begin + |slice|, bound)) && from < to
    requires next == Min(bound, at + |before[i]|)
    ensures |now| == |before| && |now[i]| == |before[i]|
    ensures AppliedTo(before, begin, slice, next,
        now[i := CopyInto(now[i], from - at, slice[from - begin..to - begin])])
  {
    hide Gather, TensorBegin, Patch;
    PatchNothing(Gather(before), begin, slice, Min(bound, at), from);
    PatchRange(before, now, begin, slice, i, from - at, from, to);
    PatchNothing(Gather(before), begin, slice, to, next);
  }

  lemma ApplySkip(before: seq<Vec>, i: nat, begin: nat, slice: Vec, bound: nat, now: seq<Vec>, at: nat, next: nat)
    requires i < |before| && at == TensorBegin(before, i) && AppliedTo(before, begin, slice, Min(bound, at), now)
    requires Max(at, begin) >= Min(at + |before[i]|, Min(begin + |slice|, bound))
    requires next == Min(bound, at + |before[i]|)
    ensures AppliedTo(before, begin, slice, next, now)
  {
    PatchNothing(Gather(before), begin, slice, Min(bound, at), next);
  }

  lemma ApplyAll(before: seq<Vec>, i: nat, begin: nat, slice: Vec, bound: nat, now: seq<Vec>)
    requires i <= |before| && AppliedTo(before, begin, slice, Min(bound, TensorBegin(before, i)), now)
    requires i == |before| || TensorBegin(before, i) >= begin + |slice|
    ensures Gather(now) == Patch(Gather(before), begin, slice, bound)
  {
    TotalNumel(before);
    PatchEnds(Gather(before), begin, slice, Min(bound, TensorBegin(before, i)), bound);
  }

  // ----- there and back

  /** Tensors of the same shapes with the same concatenation are the same tensors. */
  lemma FlatDetermines(a: seq<Vec>, b: seq<Vec>)
    requires SameShapes(a, b) && Gather(a) == Gather(b)
    ensures a == b
  {
    forall i: nat | i < |a| ensures a[i] == b[i] {
      TensorInside(a, i);
      TensorInside(b, i);
      ShapesBegin(a, b, i);
    }
  }

  /** `shard` is rank r's piece of a flat tensor cut into pieces of `size`. */
  ghost predicate RankShard(flat: Vec, size: nat, r: nat, shard: Vec) {
    && |shard| == size && r * size + size <= |flat|
    && forall k: nat | k < size :: shard[k] == flat[r * size + k]
  }

  lemma ShardEntry(flat: Vec, size: nat, shards: seq<Vec>, p: nat)
    requires |flat| == |shards| * size && forall r: nat | r < |shards| :: RankShard(flat, size, r, shards[r])
    requires p < |flat|
    ensures |Gather(shards)| == |flat| && Gather(shards)[p] == flat[p]
  {
    var r, k := Locate(p, size, |shards|);
    forall r | 0 <= r < |shards| ensures |shards[r]| == size { assert RankShard(flat, size, r, shards[r]); }
    GatherAt(shards, size, r, k);
    assert RankShard(flat, size, r, shards[r]);
  }

  /** Gathering every rank's shard gives the flat tensor back. */
  lemma ShardsGather(flat: Vec, size: nat, shards: seq<Vec>)
    requires |flat| == |shards| * size && forall r: nat | r < |shards| :: RankShard(flat, size, r, shards[r])
    ensures Gather(shards) == flat
  {
    forall r | 0 <= r < |shards| ensures |shards[r]| == size { assert RankShard(flat, size, r, shards[r]); }
    GatherLength(shards, size);
    forall p: nat | p < |flat| ensures Gather(shards)[p] == flat[p] { ShardEntry(flat, size, shards, p); }
  }

  // ----- the ranges of all ranks partition the parameters

  /** Element `o` of parameter `i` is in the range. */
  predicate Holds(range: FlatRange, i: nat, o: nat) {
    range.parameterIndex == i && range.parameterOffset <= o < range.parameterOffset + range.numel
  }

  ghost predicate AllShards(tensors: seq<Vec>, shards: seq<FlatParameterShard>) {
    forall r: nat | r < |shards| :: ShardOf(tensors, |shards|, r, shards[r])
  }

  lemma {:induction false} FindRange(ranges: seq<FlatRange>, n: nat, q: nat) returns (k: nat)
    requires Chained(ranges) && n <= |ranges| && q < CoveredBy(ranges, n)
    ensures k < n && ranges[k].shardOffset <= q < ranges[k].shardOffset + ranges[k].numel
  {
    assert Follows(ranges, n - 1);
    if ranges[n - 1].shardOffset <= q {
      k := n - 1;
    } else {
      k := FindRange(ranges, n - 1, q);
    }
  }

  lemma UniqueTensor(tensors: seq<Vec>, i: nat, o: nat, j: nat, u: nat)
    requires i < |tensors| && o < |tensors[i]| && j < |tensors| && u < |tensors[j]|
    requires TensorBegin(tensors, i) + o == TensorBegin(tensors, j) + u
    ensures i == j && o == u
  {
    if i < j { TensorOrder(tensors, i + 1, j); }
    if j < i { TensorOrder(tensors, j + 1, i); }
  }

  /** Ranges depend on the shapes only. */
  lemma SameRanges(a: seq<Vec>, b: seq<Vec>, begin: nat, covered: nat, ranges: seq<FlatRange>)
    requires SameShapes(a, b) && RangesOf(a, begin, covered, ranges)
    ensures RangesOf(b, begin, covered, ranges)
  {
    forall k | 0 <= k < |ranges| ensures RangeOk(b, begin, ranges[k]) { ShapesBegin(a, b, ranges[k].parameterIndex); }
  }

  /** The tensors' shards of all ranks, in rank order. */
  function ShardData(shards: seq<FlatParameterShard>): (data: seq<Vec>)
    ensures |data| == |shards| && forall r | 0 <= r < |shards| :: data[r] == shards[r].shard
  {
    seq(|shards|, r requires 0 <= r < |shards| => shards[r].shard)
  }

  lemma ShardDataGathers(tensors: seq<Vec>, shards: seq<FlatParameterShard>)
    requires shards != [] && AllShards(tensors, shards)
    ensures Gather(ShardData(shards)) == PaddedFlat(tensors, |shards|)
  {
    var size, flat := ShardSize(|Gather(tensors)|, |shards|), PaddedFlat(tensors, |shards|);
    ShardsCover(|Gather(tensors)|, |shards|);
    forall r: nat | r < |shards| ensures RankShard(flat, size, r, ShardData(shards)[r]) {
      assert ShardOf(tensors, |shards|, r, shards[r]);
    }
    ShardsGather(flat, size, ShardData(shards));
  }

  /** Flattening on all ranks and writing the gathered shards back restores every parameter. */
  lemma FlattenThenApply(tensors: seq<Vec>, shards: seq<FlatParameterShard>, now: seq<Vec>)
    requires shards != [] && AllShards(tensors, shards) && SameShapes(now, tensors)
    requires |Gather(now)| <= |Gather(ShardData(shards))| && Gather(now) == Gather(ShardData(shards))[..|Gather(now)|]
    ensures now == tensors
  {
    ShardDataGathers(tensors, shards);
    ShapesTotal(now, tensors);
    FlatDetermines(now, tensors);
  }

  /** Every element of every parameter is in some rank's range. */
  lemma RangeExists(tensors: seq<Vec>, shards: seq<FlatParameterShard>, i: nat, o: nat) returns (r: nat, k: nat)
    requires shards != [] && AllShards(tensors, shards) && i < |tensors| && o < |tensors[i]|
    ensures r < |shards| && k < |shards[r].ranges| && Holds(shards[r].ranges[k], i, o)
  {
    var n := |Gather(tensors)|;
    var size, p := ShardSize(n, |shards|), TensorBegin(tensors, i) + o;
    ElementAt(tensors, i, p);
    ShardsCover(n, |shards|);
    var q;
    r, q := Locate(p, size, |shards|);
    assert ShardOf(tensors, |shards|, r, shards[r]);
    k := FindRange(shards[r].ranges, |shards[r].ranges|, q);
    var range := shards[r].ranges[k];
    assert RangeOk(tensors, shards[r].shardBegin, range);
    UniqueTensor(tensors, i, o, range.parameterIndex, range.parameterOffset + (q - range.shardOffset));
  }

  /** A range's elements stand inside its shard. */
  lemma RangePlace(tensors: seq<Vec>, shards: seq<FlatParameterShard>, i: nat, o: nat, r: nat, k: nat) returns (q: nat)
    requires AllShards(tensors, shards) && r < |shards| && k < |shards[r].ranges| && Holds(shards[r].ranges[k], i, o)
    ensures i < |tensors| && o < |tensors[i]| && q < ShardSize(|Gather(tensors)|, |shards|)
    ensures TensorBegin(tensors, i) + o == r * ShardSize(|Gather(tensors)|, |shards|) + q
    ensures q == shards[r].ranges[k].shardOffset + (o - shards[r].ranges[k].parameterOffset)
  {
    var range := shards[r].ranges[k];
    assert ShardOf(tensors, |shards|, r, shards[r]);
    assert RangeOk(tensors, shards[r].shardBegin, range);
    CoveredMonotone(shards[r].ranges, k + 1, |shards[r].ranges|);
    q := range.shardOffset + (o - range.parameterOffset);
  }

  /** And in no other. */
  lemma RangeUnique(tensors: seq<Vec>, shards: seq<FlatParameterShard>, i: nat, o: nat, r: nat, k: nat, r': nat,
                    k': nat)
    requires AllShards(tensors, shards)
    requires r < |shards| && k < |shards[r].ranges| && Holds(shards[r].ranges[k], i, o)
    requires r' < |shards| && k' < |shards[r'].ranges| && Holds(shards[r'].ranges[k'], i, o)
    ensures r == r' && k == k'
  {
    var q := RangePlace(tensors, shards, i, o, r, k);
    var q' := RangePlace(tensors, shards, i, o, r', k');
    SameChunk(r, q, r', q', ShardSize(|Gather(tensors)|, |shards|));
    assert ShardOf(tensors, |shards|, r, shards[r]);
    OneRangeEach(shards[r].ranges, k, k', q);
  }

  lemma OneRangeEach(ranges: seq<FlatRange>, k: nat, k': nat, q: nat)
    requires Chained(ranges) && k < |ranges| && k' < |ranges|
    requires ranges[k].shardOffset <= q < ranges[k].shardOffset + ranges[k].numel
    requires ranges[k'].shardOffset <= q < ranges[k'].shardOffset + ranges[k'].numel
    ensures k == k'
  {
    assert Follows(ranges, k) && Follows(ranges, k');
    if k < k' { CoveredMonotone(ranges, k + 1, k'); }
    if k' < k { CoveredMonotone(ranges, k' + 1, k); }
  }
}

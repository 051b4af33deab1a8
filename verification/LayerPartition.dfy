/** The layers of pipeline stages: the one even partition with the larger shares first. */
module LayerPartition {
  import opened Chunks
  import opened Results
  import opened Topology

  /** How many layers stage `s` holds when it begins at `cuts[s]`. */
  function Share(cuts: seq<int>, s: nat): int
    requires s + 1 < |cuts|
  {
    cuts[s + 1] - cuts[s]
  }

  predicate Cuts(stages: nat, layers: nat, cuts: seq<int>) {
    stages > 0 && |cuts| == stages + 1 && cuts[0] == 0 && cuts[stages] == layers
  }

  /** Sizes never increase from stage to stage, and the first is at most one larger than the last. */
  predicate Even(stages: nat, cuts: seq<int>)
    requires stages > 0 && |cuts| == stages + 1
  {
    && (forall s: nat, t: nat | s <= t < stages :: Share(cuts, s) >= Share(cuts, t))
    && Share(cuts, 0) <= Share(cuts, stages - 1) + 1
  }

  predicate IsRange(stages: nat, layers: nat, cuts: seq<int>, s: nat)
    requires s < stages && |cuts| == stages + 1
  {
    PipelineLayerRange(stages, layers, s) == Ok(LayerRange(cuts[s], cuts[s + 1]))
  }

  /** `larger` stages hold one layer more than `base`, and they come first. */
  predicate LargerFirst(stages: nat, cuts: seq<int>, base: int, larger: nat)
    requires |cuts| == stages + 1
  {
    forall s: nat | s < stages :: Share(cuts, s) == base + if s < larger then 1 else 0
  }

  /** The stages' ranges are the only partition of this kind: five layers on two stages are three and two. */
  lemma EvenExactly(stages: nat, layers: nat, cuts: seq<int>)
    requires Cuts(stages, layers, cuts)
    ensures Even(stages, cuts) <==> forall s: nat | s < stages :: IsRange(stages, layers, cuts, s)
  {
    hide PipelineLayerRange, Share;
    var base: int, rest := layers / stages, layers % stages;
    if Even(stages, cuts) {
      var larger := CountLarger(stages, cuts, Share(cuts, stages - 1), stages - 1);
      CutAt(stages, cuts, Share(cuts, stages - 1), larger, stages);
      BaseAndRest(stages, layers, Share(cuts, stages - 1), larger);
      forall s: nat | s < stages ensures IsRange(stages, layers, cuts, s) {
        CutAt(stages, cuts, base, rest, s);
        CutAt(stages, cuts, base, rest, s + 1);
        RangeAt(stages, layers, cuts, s);
      }
    }
    if forall s: nat | s < stages :: IsRange(stages, layers, cuts, s) {
      forall s: nat | s < stages ensures Share(cuts, s) == base + if s < rest then 1 else 0 {
        assert IsRange(stages, layers, cuts, s);
        ShareAt(stages, layers, cuts, s);
      }
    }
  }

  lemma RangeAt(stages: nat, layers: nat, cuts: seq<int>, s: nat)
    requires s < stages && |cuts| == stages + 1
    requires cuts[s] == s * (layers / stages) + if s <= layers % stages then s else layers % stages
    requires Share(cuts, s) == layers / stages + if s < layers % stages then 1 else 0
    ensures IsRange(stages, layers, cuts, s)
  {
  }

  lemma ShareAt(stages: nat, layers: nat, cuts: seq<int>, s: nat)
    requires s < stages && |cuts| == stages + 1 && IsRange(stages, layers, cuts, s)
    ensures Share(cuts, s) == layers / stages + if s < layers % stages then 1 else 0
  {
  }

  lemma {:induction false} CountLarger(stages: nat, cuts: seq<int>, base: int, n: nat) returns (larger: nat)
    requires n < stages && |cuts| == stages + 1 && Even(stages, cuts) && base == Share(cuts, stages - 1)
    requires forall s: nat | n <= s < stages :: Share(cuts, s) == base
    ensures larger < stages && LargerFirst(stages, cuts, base, larger)
  {
    hide Share;
    if n == 0 || Share(cuts, n - 1) != base {
      larger := n;
      forall s: nat | s < stages ensures Share(cuts, s) == base + if s < larger then 1 else 0 {
        assert Share(cuts, 0) >= Share(cuts, s) >= Share(cuts, stages - 1);
        if s < n { assert Share(cuts, s) >= Share(cuts, n - 1) >= Share(cuts, stages - 1); }
      }
    } else {
      larger := CountLarger(stages, cuts, base, n - 1);
    }
  }

  lemma {:induction false} CutAt(stages: nat, cuts: seq<int>, base: int, larger: nat, s: nat)
    requires s <= stages && |cuts| == stages + 1 && cuts[0] == 0 && LargerFirst(stages, cuts, base, larger)
    ensures cuts[s] == s * base + if s <= larger then s else larger
  {
    if s > 0 {
      CutAt(stages, cuts, base, larger, s - 1);
      assert cuts[s] == cuts[s - 1] + Share(cuts, s - 1);
      assert s * base == (s - 1) * base + base;
    }
  }

  lemma NegativeMultiple(stages: nat, base: int)
    ensures base < 0 ==> stages * base <= 0 - stages
  {
  }

  lemma BaseAndRest(stages: nat, layers: nat, base: int, larger: nat)
    requires larger < stages && layers == stages * base + larger
    ensures layers / stages == base && layers % stages == larger
  {
    assert layers == layers / stages * stages + layers % stages;
    NegativeMultiple(stages, base);
    SameChunk(base, larger, layers / stages, layers % stages, stages);
  }
}

/** One optimizer step of all data-parallel ranks on flat shards, and whole runs of it against the
    unsharded optimizer on the averaged, globally clipped gradient. */
module ShardedAdamW {
  import opened AdamW
  import opened Chunks
  import opened FlatShards
  import opened MasterAdamW
  import opened Results
  import opened Sums
  import opened Vectors

  // ----- clipping by the global norm

  lemma {:induction false} SquaresAreNonNegative(v: Vec, n: nat)
    ensures SumTo(n, Squares(v)) >= 0.0
  {
    if n > 0 {
      SquaresAreNonNegative(v, n - 1);
      if n - 1 < |v| { Square(v[n - 1]); }
    }
  }

  function ClipScale(sqrt: real -> real, maxNorm: real, normSq: real): real
    requires IsRoot(sqrt) && normSq >= 0.0
  {
    if maxNorm > 0.0 && sqrt(normSq) > maxNorm then maxNorm / (sqrt(normSq) + 0.000001) else 1.0
  }

  function Clipped(sqrt: real -> real, maxNorm: real, grad: Vec): (r: Vec)
    requires IsRoot(sqrt)
    ensures |r| == |grad|
  {
    SquaresAreNonNegative(grad, |grad|);
    Scale(grad, ClipScale(sqrt, maxNorm, SumSquares(grad)))
  }

  lemma SquaresConcat(a: Vec, b: Vec)
    ensures SumSquares(a + b) == SumSquares(a) + SumSquares(b)
  {
    SumSplit(|a|, |b|, Squares(a + b), Squares(b));
    SumEqual(|a|, Squares(a + b), Squares(a));
  }

  lemma SquaresOfZeros(n: nat)
    ensures SumSquares(Zeros(n)) == 0.0
  {
    SumZero(n, Squares(Zeros(n)));
  }

  /** The all-reduced sum of the ranks' squared norms is the squared norm of the whole. */
  lemma {:induction false} SquaresGather(shards: seq<Vec>)
    ensures SumTo(|shards|, SquaresOf(shards)) == SumSquares(Gather(shards))
  {
    if shards == [] {
      assert SumTo(0, Squares([])) == 0.0;
    } else {
      var n := |shards| - 1;
      SquaresGather(shards[..n]);
      SumEqual(n, SquaresOf(shards[..n]), SquaresOf(shards));
      SquaresConcat(Gather(shards[..n]), shards[n]);
    }
  }

  function SquaresOf(shards: seq<Vec>): nat -> real {
    (r: nat) => if r < |shards| then SumSquares(shards[r]) else 0.0
  }

  function Somes(tensors: seq<Vec>): (r: seq<Option<Vec>>)
    ensures |r| == |tensors| && forall i | 0 <= i < |r| :: r[i] == Some(tensors[i])
  {
    seq(|tensors|, i requires 0 <= i < |tensors| => Some(tensors[i]))
  }

  lemma {:induction false} NormGather(tensors: seq<Vec>)
    ensures NormSq(Somes(tensors)) == SumSquares(Gather(tensors))
  {
    if tensors == [] {
      assert SumTo(0, Squares([])) == 0.0;
    } else {
      var n := |tensors| - 1;
      assert Somes(tensors)[..n] == Somes(tensors[..n]);
      NormGather(tensors[..n]);
      SquaresConcat(Gather(tensors[..n]), tensors[n]);
    }
  }

  // ----- one step of the whole padded state

  /** Every rank's state laid end to end, stepped with the clipped whole gradient. */
  function WholeStep(o: Options, sqrt: real -> real, maxNorm: real, t: nat, whole: seq<AdamCell>,
                     grad: Vec): (next: seq<AdamCell>)
    requires o.Valid() && IsRoot(sqrt) && t > 0 && |grad| == |whole|
    ensures |next| == |whole|
  {
    StepCells(o, sqrt, t, whole, Clipped(sqrt, maxNorm, grad))
  }

  /** One step of the unsharded optimizer on gradients that all parameters have. */
  function ReferenceStep(o: Options, sqrt: real -> real, maxNorm: real, t: nat, states: seq<seq<AdamCell>>,
                         grads: seq<Vec>): (next: seq<seq<AdamCell>>)
    requires o.Valid() && IsRoot(sqrt) && t > 0 && SameSizes(states, grads)
    ensures SameSizes(next, grads)
  {
    NormGather(grads);
    SquaresAreNonNegative(Gather(grads), |Gather(grads)|);
    var scale := ClipScale(sqrt, maxNorm, NormSq(Somes(grads)));
    seq(|states|, i requires 0 <= i < |states| => StepCells(o, sqrt, t, states[i], Scale(grads[i], scale)))
  }

  predicate SameSizes<A, B>(a: seq<seq<A>>, b: seq<seq<B>>) {
    |a| == |b| && forall i | 0 <= i < |a| :: |a[i]| == |b[i]|
  }

  lemma {:induction false} SizesBegin<A, B>(a: seq<seq<A>>, b: seq<seq<B>>, i: nat)
    requires SameSizes(a, b) && i <= |a|
    ensures TensorBegin(a, i) == TensorBegin(b, i)
  {
    if i > 0 { SizesBegin(a, b, i - 1); }
  }

  lemma SizesTotal<A, B>(a: seq<seq<A>>, b: seq<seq<B>>)
    requires SameSizes(a, b)
    ensures |Gather(a)| == |Gather(b)|
  {
    TotalNumel(a);
    TotalNumel(b);
    SizesBegin(a, b, |a|);
  }

  lemma {:induction false} LocateTensor<T>(tensors: seq<seq<T>>, n: nat, p: nat) returns (i: nat)
    requires n <= |tensors| && p < TensorBegin(tensors, n)
    ensures i < n && TensorBegin(tensors, i) <= p < TensorBegin(tensors, i) + |tensors[i]|
  {
    if p < TensorBegin(tensors, n - 1) {
      i := LocateTensor(tensors, n - 1, p);
    } else {
      i := n - 1;
    }
  }

  predicate ZeroFrom(cells: seq<AdamCell>, n: nat) {
    forall i: nat | n <= i < |cells| :: cells[i] == Cell(0.0, 0.0, 0.0)
  }

  predicate ZeroAfter(grad: Vec, n: nat) {
    forall i: nat | n <= i < |grad| :: grad[i] == 0.0
  }

  /** Zero padding adds nothing to the norm, so both sides clip alike. */
  lemma PaddedNorm(grad: Vec, n: nat)
    requires n <= |grad| && ZeroAfter(grad, n)
    ensures SumSquares(grad) == SumSquares(grad[..n])
  {
    assert grad == grad[..n] + Zeros(|grad| - n);
    SquaresConcat(grad[..n], Zeros(|grad| - n));
    SquaresOfZeros(|grad| - n);
  }

  /** A sharded step is the reference step on the same gradient, and padding stays zero. */
  lemma StepRefines(o: Options, sqrt: real -> real, maxNorm: real, t: nat, whole: seq<AdamCell>, grad: Vec, n: nat,
                    states: seq<seq<AdamCell>>, grads: seq<Vec>)
    requires o.Valid() && IsRoot(sqrt) && t > 0 && |grad| == |whole| && SameSizes(states, grads)
    requires n == |Gather(states)| <= |whole|
    requires whole[..n] == Gather(states) && grad[..n] == Gather(grads) && ZeroFrom(whole, n) && ZeroAfter(grad, n)
    ensures |Gather(ReferenceStep(o, sqrt, maxNorm, t, states, grads))| == n
    ensures WholeStep(o, sqrt, maxNorm, t, whole, grad)[..n]
        == Gather(ReferenceStep(o, sqrt, maxNorm, t, states, grads))
    ensures ZeroFrom(WholeStep(o, sqrt, maxNorm, t, whole, grad), n)
  {
    var reference := ReferenceStep(o, sqrt, maxNorm, t, states, grads);
    SizesTotal(reference, states);
    PaddedNorm(grad, n);
    NormGather(grads);
    SquaresAreNonNegative(grad, |grad|);
    StepsAlike(o, sqrt, t, whole, grad, n, states, grads, reference, ClipScale(sqrt, maxNorm, SumSquares(grad)));
  }

  function Updater(o: Options, sqrt: real -> real, t: nat, scale: real): (AdamCell, real) -> AdamCell
    requires o.Valid() && IsRoot(sqrt) && t > 0
  {
    (c: AdamCell, g: real) => StepCell(o, sqrt, t, c, g * scale)
  }

  lemma StepsAlike(o: Options, sqrt: real -> real, t: nat, whole: seq<AdamCell>, grad: Vec, n: nat,
                   states: seq<seq<AdamCell>>, grads: seq<Vec>, reference: seq<seq<AdamCell>>, scale: real)
    requires o.Valid() && IsRoot(sqrt) && t > 0 && |grad| == |whole| && SameSizes(states, grads)
    requires n == |Gather(states)| <= |whole|
    requires whole[..n] == Gather(states) && grad[..n] == Gather(grads) && ZeroFrom(whole, n) && ZeroAfter(grad, n)
    requires SameSizes(reference, grads)
    requires forall i | 0 <= i < |reference| :: reference[i] == StepCells(o, sqrt, t, states[i], Scale(grads[i], scale))
    ensures |Gather(reference)| == n && StepCells(o, sqrt, t, whole, Scale(grad, scale))[..n] == Gather(reference)
    ensures ZeroFrom(StepCells(o, sqrt, t, whole, Scale(grad, scale)), n)
  {
    var next, f := StepCells(o, sqrt, t, whole, Scale(grad, scale)), Updater(o, sqrt, t, scale);
    assert |Gather(reference)| == n by { SizesTotal(reference, states); }
    assert next[..n] == Gather(reference) by {
      UpdatesCells(o, sqrt, t, scale, whole, grad, f);
      TensorsUpdated(o, sqrt, t, scale, states, grads, reference, f);
      NextIsGathered(f, whole, grad, n, states, grads, reference, next);
    }
    PaddingStays(o, sqrt, t, whole, grad, n, scale);
  }

  lemma TensorsUpdated(o: Options, sqrt: real -> real, t: nat, scale: real, states: seq<seq<AdamCell>>,
                       grads: seq<Vec>, reference: seq<seq<AdamCell>>,
                       f: (AdamCell, real) -> AdamCell)
    requires o.Valid() && IsRoot(sqrt) && t > 0 && f == Updater(o, sqrt, t, scale) && SameSizes(states, grads)
    requires SameSizes(reference, grads)
    requires forall i | 0 <= i < |reference| :: reference[i] == StepCells(o, sqrt, t, states[i], Scale(grads[i], scale))
    ensures forall i: nat, k: nat | i < |reference| && k < |reference[i]| ::
        reference[i][k] == f(states[i][k], grads[i][k])
  {
    forall i: nat, k: nat | i < |reference| && k < |reference[i]|
      ensures reference[i][k] == f(states[i][k], grads[i][k]) {
      UpdatesCells(o, sqrt, t, scale, states[i], grads[i], f);
    }
  }

  lemma PaddingStays(o: Options, sqrt: real -> real, t: nat, whole: seq<AdamCell>, grad: Vec, n: nat, scale: real)
    requires o.Valid() && IsRoot(sqrt) && t > 0 && |grad| == |whole| && ZeroFrom(whole, n) && ZeroAfter(grad, n)
    ensures ZeroFrom(StepCells(o, sqrt, t, whole, Scale(grad, scale)), n)
  {
    ZeroStays(o, sqrt, t);
    forall p: nat | n <= p < |whole|
      ensures StepCells(o, sqrt, t, whole, Scale(grad, scale))[p] == Cell(0.0, 0.0, 0.0) {
      assert Scale(grad, scale)[p] == 0.0;
    }
  }

  lemma UpdatesCells(o: Options, sqrt: real -> real, t: nat, scale: real, cells: seq<AdamCell>, grad: Vec,
                     f: (AdamCell, real) -> AdamCell)
    requires o.Valid() && IsRoot(sqrt) && t > 0 && |grad| == |cells| && f == Updater(o, sqrt, t, scale)
    ensures forall p: nat | p < |cells| :: StepCells(o, sqrt, t, cells, Scale(grad, scale))[p] == f(cells[p], grad[p])
  {
    forall p: nat | p < |cells| ensures StepCells(o, sqrt, t, cells, Scale(grad, scale))[p] == f(cells[p], grad[p]) {
      assert Scale(grad, scale)[p] == grad[p] * scale;
    }
  }

  lemma NextIsGathered(f: (AdamCell, real) -> AdamCell, whole: seq<AdamCell>, grad: Vec, n: nat,
                       states: seq<seq<AdamCell>>, grads: seq<Vec>, results: seq<seq<AdamCell>>, next: seq<AdamCell>)
    requires |next| == |grad| == |whole| && n == |Gather(states)| == |Gather(results)| <= |whole|
    requires SameSizes(states, grads) && SameSizes(results, grads)
    requires whole[..n] == Gather(states) && grad[..n] == Gather(grads)
    requires forall p: nat | p < |whole| :: next[p] == f(whole[p], grad[p])
    requires forall i: nat, k: nat | i < |results| && k < |results[i]| :: results[i][k] == f(states[i][k], grads[i][k])
    ensures next[..n] == Gather(results)
  {
    forall p: nat | p < n ensures next[p] == Gather(results)[p] {
      GatherZip(f, states, grads, results, p);
      assert whole[p] == whole[..n][p] && grad[p] == grad[..n][p];
    }
  }

  /** Working element by element on tensors is working element by element on their concatenation. */
  lemma GatherZip<A, B>(f: (A, real) -> B, states: seq<seq<A>>, grads: seq<Vec>, results: seq<seq<B>>, p: nat)
    requires SameSizes(states, grads) && SameSizes(results, grads) && p < |Gather(states)|
    requires forall i: nat, k: nat | i < |results| && k < |results[i]| :: results[i][k] == f(states[i][k], grads[i][k])
    ensures p < |Gather(grads)| && p < |Gather(results)| && Gather(results)[p] == f(Gather(states)[p], Gather(grads)[p])
  {
    TotalNumel(states);
    var i := LocateTensor(states, |states|, p);
    var k := p - TensorBegin(states, i);
    assert Gather(states)[p] == states[i][k] by { ElementAt(states, i, p); }
    assert p < |Gather(grads)| && Gather(grads)[p] == grads[i][k] by {
      SizesBegin(states, grads, i);
      ElementAt(grads, i, p);
    }
    assert p < |Gather(results)| && Gather(results)[p] == results[i][k] by {
      SizesBegin(states, results, i);
      ElementAt(results, i, p);
    }
  }
}

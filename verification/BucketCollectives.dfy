/** Broadcast and gradient all-reduce in buckets. */
module BucketCollectives {
  import opened Buckets
  import opened BucketTransfer
  import opened Results
  import opened Sequences
  import opened Sums
  import opened Vectors

  /** Entry `j` on every rank. */
  function Column(vectors: seq<Vec>, j: nat): (column: seq<real>)
    requires forall q | 0 <= q < |vectors| :: j < |vectors[q]|
    ensures |column| == |vectors| && forall q | 0 <= q < |vectors| :: column[q] == vectors[q][j]
  {
    seq(|vectors|, q requires 0 <= q < |vectors| => vectors[q][j])
  }

  /** The collective on one vector a rank. */
  function Combined(vectors: seq<Vec>, n: nat, combine: seq<real> -> real): (r: Vec)
    requires Widths(vectors, n)
    ensures |r| == n && forall j: nat | j < n :: r[j] == combine(Column(vectors, j))
  {
    seq(n, j requires 0 <= j < n => combine(Column(vectors, j)))
  }

  predicate AllSized(metas: seq<Meta>, states: seq<seq<Vec>>) {
    forall q | 0 <= q < |states| :: Sized(metas, states[q])
  }

  /** Tensor `k` on every rank. */
  function TensorOnRanks(metas: seq<Meta>, states: seq<seq<Vec>>, k: nat): (vectors: seq<Vec>)
    requires AllSized(metas, states) && k < |metas|
    ensures |vectors| == |states| && Widths(vectors, metas[k].numel)
    ensures forall q | 0 <= q < |states| :: vectors[q] == states[q][k]
  {
    seq(|states|, q requires 0 <= q < |states| => states[q][k])
  }

  /** The reference: the collective on tensor `k` alone. */
  function Alone(metas: seq<Meta>, states: seq<seq<Vec>>, k: nat, combine: seq<real> -> real): (r: Vec)
    requires AllSized(metas, states) && k < |metas|
    ensures |r| == metas[k].numel
  {
    Combined(TensorOnRanks(metas, states, k), metas[k].numel, combine)
  }

  function Payloads(metas: seq<Meta>, states: seq<seq<Vec>>, b: Bucket): (payloads: seq<Vec>)
    requires AllSized(metas, states) && b.begin < b.end <= |metas|
    ensures |payloads| == |states| && Widths(payloads, NumelOf(metas, b.begin, b.end))
    ensures forall q | 0 <= q < |states| :: payloads[q] == FlatOf(metas, states[q], b.begin, b.end)
  {
    seq(|states|, q requires 0 <= q < |states| => FlatOf(metas, states[q], b.begin, b.end))
  }

  /** The payload of a combined bucket holds every tensor's own result. */
  lemma CombinedBucket(metas: seq<Meta>, states: seq<seq<Vec>>, b: Bucket, k: nat, combine: seq<real> -> real,
                       synced: Vec)
    requires AllSized(metas, states) && b.begin <= k < b.end <= |metas|
    requires synced == Combined(Payloads(metas, states, b), NumelOf(metas, b.begin, b.end), combine)
    ensures TensorFrom(metas, b, synced, k) == Alone(metas, states, k, combine)
  {
    var offset, alone := NumelOf(metas, b.begin, k), Alone(metas, states, k, combine);
    NumelGrows(metas, b.begin, k + 1, b.end);
    EntriesAgree(metas, states, b, k, combine, synced, offset, alone);
    hide *;
    SliceIs(synced, offset, alone);
    TensorIsSlice(metas, b, synced, k, offset, alone);
  }

  lemma TensorIsSlice(metas: seq<Meta>, b: Bucket, flat: Vec, k: nat, offset: nat, part: Vec)
    requires b.begin <= k < b.end <= |metas| && |flat| == NumelOf(metas, b.begin, b.end)
    requires offset == NumelOf(metas, b.begin, k)
    requires |part| == metas[k].numel && offset + |part| <= |flat| && flat[offset..offset + |part|] == part
    ensures TensorFrom(metas, b, flat, k) == part
  {
  }

  lemma EntriesAgree(metas: seq<Meta>, states: seq<seq<Vec>>, b: Bucket, k: nat, combine: seq<real> -> real,
                     synced: Vec, offset: nat, alone: Vec)
    requires AllSized(metas, states) && b.begin <= k < b.end <= |metas|
    requires synced == Combined(Payloads(metas, states, b), NumelOf(metas, b.begin, b.end), combine)
    requires offset == NumelOf(metas, b.begin, k) && offset + metas[k].numel <= |synced|
    requires alone == Alone(metas, states, k, combine)
    ensures |alone| == metas[k].numel && forall j: nat | j < |alone| :: synced[offset + j] == alone[j]
  {
    hide *;
    forall j: nat | j < |alone| ensures synced[offset + j] == alone[j] {
      CombinedEntry(metas, states, b, k, combine, j);
    }
  }

  lemma CombinedEntry(metas: seq<Meta>, states: seq<seq<Vec>>, b: Bucket, k: nat, combine: seq<real> -> real, j: nat)
    requires AllSized(metas, states) && b.begin <= k < b.end <= |metas| && j < metas[k].numel
    ensures NumelOf(metas, b.begin, k) + j < NumelOf(metas, b.begin, b.end)
    ensures var offset := NumelOf(metas, b.begin, k);
            Combined(Payloads(metas, states, b), NumelOf(metas, b.begin, b.end), combine)[offset + j]
            == Alone(metas, states, k, combine)[j]
  {
    SameColumn(metas, states, b, k, j);
  }

  lemma SameColumn(metas: seq<Meta>, states: seq<seq<Vec>>, b: Bucket, k: nat, j: nat)
    requires AllSized(metas, states) && b.begin <= k < b.end <= |metas| && j < metas[k].numel
    ensures NumelOf(metas, b.begin, k) + j < NumelOf(metas, b.begin, b.end)
    ensures Column(Payloads(metas, states, b), NumelOf(metas, b.begin, k) + j)
        == Column(TensorOnRanks(metas, states, k), j)
  {
    var offset := NumelOf(metas, b.begin, k);
    NumelGrows(metas, b.begin, k + 1, b.end);
    forall q | 0 <= q < |states| ensures Payloads(metas, states, b)[q][offset + j] == states[q][k][j] {
      FlatAt(metas, states[q], b.begin, k, b.end);
      assert FlatOf(metas, states[q], b.begin, b.end)[offset..offset + metas[k].numel][j] == states[q][k][j];
    }
  }

  /** Tensors before `begin` hold their results on every rank; the others are as they were. */
  predicate SyncedUpTo(metas: seq<Meta>, start: seq<seq<Vec>>, states: seq<seq<Vec>>, combine: seq<real> -> real,
                       begin: nat)
    requires AllSized(metas, start)
  {
    && |states| == |start| && AllSized(metas, states)
    && forall q: nat, k: nat | q < |states| && k < |metas| :: TensorIs(metas, start, states, combine, begin, q, k)
  }

  predicate TensorIs(metas: seq<Meta>, start: seq<seq<Vec>>, states: seq<seq<Vec>>, combine: seq<real> -> real,
                     begin: nat, q: nat, k: nat)
    requires AllSized(metas, start) && AllSized(metas, states) && q < |states| == |start| && k < |metas|
  {
    states[q][k] == if k < begin then Alone(metas, start, k, combine) else start[q][k]
  }

  method CollectPayloads(metas: seq<Meta>, states: seq<seq<Vec>>, b: Bucket) returns (payloads: seq<Vec>)
    requires AllSized(metas, states) && b.begin < b.end <= |metas|
    ensures payloads == Payloads(metas, states, b)
  {
    payloads := [];
    for q := 0 to |states|
      invariant |payloads| == q && forall p | 0 <= p < q :: payloads[p] == FlatOf(metas, states[p], b.begin, b.end)
    {
      var payload := FlattenBucket(metas, states[q], b);
      payloads := payloads + [payload];
    }
  }

  /** All ranks flush the same bucket: flatten, combine, copy back. */
  method Flush(metas: seq<Meta>, states: seq<seq<Vec>>, b: Bucket, combine: seq<real> -> real,
               ghost start: seq<seq<Vec>>)
    returns (next: seq<seq<Vec>>)
    requires AllSized(metas, start) && b.begin < b.end <= |metas| && SyncedUpTo(metas, start, states, combine, b.begin)
    ensures SyncedUpTo(metas, start, next, combine, b.end)
  {
    var payloads := CollectPayloads(metas, states, b);
    var synced := Combined(payloads, NumelOf(metas, b.begin, b.end), combine);
    next := [];
    for q := 0 to |states|
      invariant |next| == q && forall p | 0 <= p < q :: next[p] == Unflattened(metas, states[p], b, synced)
    {
      var tensors := UnflattenBucket(metas, states[q], b, synced);
      next := next + [tensors];
    }
    FlushSyncs(metas, start, states, next, b, combine, synced);
  }

  lemma FlushSyncs(metas: seq<Meta>, start: seq<seq<Vec>>, states: seq<seq<Vec>>, next: seq<seq<Vec>>, b: Bucket,
                   combine: seq<real> -> real, synced: Vec)
    requires AllSized(metas, start) && b.begin < b.end <= |metas| && SyncedUpTo(metas, start, states, combine, b.begin)
    requires synced == Combined(Payloads(metas, states, b), NumelOf(metas, b.begin, b.end), combine)
    requires |next| == |states| && forall q | 0 <= q < |next| :: next[q] == Unflattened(metas, states[q], b, synced)
    ensures SyncedUpTo(metas, start, next, combine, b.end)
  {
    hide FlatOf, NumelOf, Combined, Column, Payloads, TensorOnRanks, Alone, TensorFrom;
    forall q: nat, k: nat | q < |next| && k < |metas| ensures TensorIs(metas, start, next, combine, b.end, q, k) {
      OneSynced(metas, start, states, next, b, combine, synced, q, k);
    }
  }

  lemma OneSynced(metas: seq<Meta>, start: seq<seq<Vec>>, states: seq<seq<Vec>>, next: seq<seq<Vec>>, b: Bucket,
                  combine: seq<real> -> real, synced: Vec, q: nat, k: nat)
    requires AllSized(metas, start) && b.begin < b.end <= |metas| && SyncedUpTo(metas, start, states, combine, b.begin)
    requires synced == Combined(Payloads(metas, states, b), NumelOf(metas, b.begin, b.end), combine)
    requires |next| == |states| && AllSized(metas, next) && q < |next| && k < |metas|
    requires next[q] == Unflattened(metas, states[q], b, synced)
    ensures TensorIs(metas, start, next, combine, b.end, q, k)
  {
    hide FlatOf, NumelOf, Combined, Column, Payloads, TensorOnRanks, Alone, TensorFrom;
    assert TensorIs(metas, start, states, combine, b.begin, q, k);
    if b.begin <= k < b.end {
      CombinedBucket(metas, states, b, k, combine, synced);
      AloneUnchanged(metas, start, states, k, combine, b.begin);
    }
  }

  /** What has not been flushed still has its own result to come. */
  lemma AloneUnchanged(metas: seq<Meta>, start: seq<seq<Vec>>, states: seq<seq<Vec>>, k: nat,
                       combine: seq<real> -> real, begin: nat)
    requires AllSized(metas, start) && SyncedUpTo(metas, start, states, combine, begin) && begin <= k < |metas|
    ensures Alone(metas, states, k, combine) == Alone(metas, start, k, combine)
  {
    forall q: nat | q < |states| ensures states[q][k] == start[q][k] {
      assert TensorIs(metas, start, states, combine, begin, q, k);
    }
    assert TensorOnRanks(metas, states, k) == TensorOnRanks(metas, start, k);
  }

  /** The bucketing loop of the broadcast and of the gradient all-reduce, on all ranks in lockstep. */
  method SyncInBuckets(metas: seq<Meta>, start: seq<seq<Vec>>, combine: seq<real> -> real, bucketBytes: nat)
    returns (states: seq<seq<Vec>>)
    requires AllSized(metas, start) && bucketBytes > 0
    ensures SyncedUpTo(metas, start, states, combine, |metas|)
  {
    states := start;
    var begin, i: nat, currentBytes: nat, haveBucket := 0, 0, 0, false;
    while i < |metas|
      invariant 0 <= begin <= i <= |metas| && currentBytes == BytesOf(metas, begin, i) && (haveBucket <==> begin < i)
      invariant SyncedUpTo(metas, start, states, combine, begin)
    {
      var incompatible := haveBucket && !metas[i].SameKind(metas[begin]);
      var wouldOverflow := haveBucket && currentBytes + metas[i].Bytes() > bucketBytes;
      if incompatible || wouldOverflow {
        states := Flush(metas, states, Bucket(begin, i), combine, start);
        begin, currentBytes, haveBucket := i, 0, false;
      }
      haveBucket, currentBytes, i := true, currentBytes + metas[i].Bytes(), i + 1;
    }
    if haveBucket {
      states := Flush(metas, states, Bucket(begin, i), combine, start);
    }
  }

  // ----- broadcast from a root

  function Pick(root: nat): seq<real> -> real {
    (column: seq<real>) => if root < |column| then column[root] else 0.0
  }

  method CheckNames(metas: seq<Meta>) returns (ok: bool)
    ensures ok <==> Named(metas)
  {
    for k := 0 to |metas|
      invariant forall j | 0 <= j < k :: metas[j].name != ""
    {
      if metas[k].name == "" { return false; }
    }
    return true;
  }

  /** broadcast_parameters_from_root on all ranks: everyone ends with the root's tensors, whatever the bucket size. */
  method BroadcastParameters(metas: seq<Meta>, start: seq<seq<Vec>>, root: int, bucketBytes: int)
    returns (r: Result<seq<seq<Vec>>>)
    requires AllSized(metas, start) && start != []
    ensures r.Ok? <==> metas == [] || (bucketBytes > 0 && 0 <= root < |start| && Named(metas))
    ensures r.Ok? && metas != [] ==> |r.value| == |start| && forall q | 0 <= q < |start| :: r.value[q] == start[root]
    ensures r.Ok? && metas == [] ==> r.value == start
  {
    if metas == [] { return Ok(start); }
    if bucketBytes <= 0 { return Err("broadcast_parameters_from_root bucket_bytes must be positive"); }
    if root < 0 || root >= |start| { return Err("broadcast_parameters_from_root root is not in group"); }
    var named := CheckNames(metas);
    if !named { return Err("parameter name must not be empty"); }
    if |start| == 1 { return Ok(start); }
    var states := SyncInBuckets(metas, start, Pick(root), bucketBytes);
    forall q: nat | q < |states| ensures states[q] == start[root] {
      forall k: nat | k < |metas| ensures states[q][k] == start[root][k] {
        assert TensorIs(metas, start, states, Pick(root), |metas|, q, k);
        PickIsRoot(metas, start, root, k);
      }
    }
    return Ok(states);
  }

  lemma PickIsRoot(metas: seq<Meta>, start: seq<seq<Vec>>, root: nat, k: nat)
    requires AllSized(metas, start) && root < |start| && k < |metas|
    ensures Alone(metas, start, k, Pick(root)) == start[root][k]
  {
  }

  // ----- gradient all-reduce

  function SumOfColumn(column: seq<real>): real {
    SumTo(|column|, (q: nat) => if q < |column| then column[q] else 0.0)
  }

  function Reduction(average: bool): seq<real> -> real {
    (column: seq<real>) => if average && column != [] then SumOfColumn(column) / (|column| as real)
      else SumOfColumn(column)
  }

  /** The reduction adds up the ranks' entries, one by one, and the mean is their sum shared out. */
  lemma ReductionLaws(column: seq<real>, x: real)
    ensures Reduction(false)([]) == 0.0 && Reduction(false)(column + [x]) == Reduction(false)(column) + x
    ensures Reduction(false)(column + [x]) == (|column| + 1) as real * Reduction(true)(column + [x])
  {
    var f := (q: nat) => if q < |column| then column[q] else 0.0;
    var g := (q: nat) => if q < |column + [x]| then (column + [x])[q] else 0.0;
    SumEqual(|column|, f, g);
    assert SumOfColumn(column + [x]) == SumOfColumn(column) + x;
  }

  /** data_parallel_sync_gradients on all ranks: every gradient is the one-tensor sum or mean, whatever the
      bucket size. */
  method SyncGradients(metas: seq<Meta>, start: seq<seq<Vec>>, average: bool, bucketBytes: int)
    returns (r: Result<seq<seq<Vec>>>)
    requires AllSized(metas, start) && start != []
    ensures r.Ok? <==> bucketBytes > 0
    ensures r.Ok? ==> |r.value| == |start| && AllSized(metas, r.value)
    ensures r.Ok? ==> forall q: nat, k: nat | q < |start| && k < |metas| ::
        r.value[q][k] == Alone(metas, start, k, Reduction(average))
  {
    if bucketBytes <= 0 { return Err("data_parallel_sync_gradients bucket_bytes must be positive"); }
    if |start| == 1 {
      forall k: nat | k < |metas| ensures start[0][k] == Alone(metas, start, k, Reduction(average)) {
        OneRank(metas, start, k, average);
      }
      return Ok(start);
    }
    var states := SyncInBuckets(metas, start, Reduction(average), bucketBytes);
    forall q: nat, k: nat | q < |start| && k < |metas|
      ensures states[q][k] == Alone(metas, start, k, Reduction(average)) {
      assert TensorIs(metas, start, states, Reduction(average), |metas|, q, k);
    }
    return Ok(states);
  }

  /** The early return for a group of one leaves exactly what reducing would give. */
  lemma OneRank(metas: seq<Meta>, start: seq<seq<Vec>>, k: nat, average: bool)
    requires AllSized(metas, start) && |start| == 1 && k < |metas|
    ensures Alone(metas, start, k, Reduction(average)) == start[0][k]
  {
    forall j: nat | j < metas[k].numel ensures Alone(metas, start, k, Reduction(average))[j] == start[0][k][j] {
      OneSum(Column(TensorOnRanks(metas, start, k), j));
    }
  }

  lemma OneSum(column: seq<real>)
    requires |column| == 1
    ensures SumOfColumn(column) == column[0]
  {
    var f := (q: nat) => if q < |column| then column[q] else 0.0;
    assert SumTo(1, f) == SumTo(0, f) + f(0);
  }
}

/** The gated delta-rule scan of one head. */
module LinearScan {
  import opened Chunks
  import opened Results
  import opened Sums
  import opened Vectors
  import R = RingAttention

  /** What one position feeds the scan. */
  datatype Step = Step(query: Vec, key: Vec, value: Vec, beta: real, g: real)

  /** A key-by-value matrix. */
  type State = seq<Vec>

  predicate StateOk(state: State, kd: nat, vd: nat) {
    |state| == kd && Widths(state, vd)
  }

  predicate StepOk(x: Step, kd: nat, vd: nat) {
    |x.query| == |x.key| == kd && |x.value| == vd
  }

  predicate StepsOk(steps: seq<Step>, kd: nat, vd: nat) {
    forall i | 0 <= i < |steps| :: StepOk(steps[i], kd, vd)
  }

  function Decay(state: State, factor: real, vd: nat): (decayed: State)
    requires Widths(state, vd)
    ensures StateOk(decayed, |state|, vd)
  {
    seq(|state|, r requires 0 <= r < |state| => Scale(state[r], factor))
  }

  function Weighted(state: State, x: Vec, vd: nat, c: nat): nat -> real
    requires Widths(state, vd) && |x| == |state| && c < vd
  {
    (r: nat) => if r < |state| then state[r][c] * x[r] else 0.0
  }

  /** (state * x.unsqueeze(-1)).sum(-2) */
  function Contract(state: State, x: Vec, vd: nat): (row: Vec)
    requires Widths(state, vd) && |x| == |state|
    ensures |row| == vd
  {
    seq(vd, c requires 0 <= c < vd => SumTo(|state|, Weighted(state, x, vd, c)))
  }

  function Delta(value: Vec, memory: Vec, beta: real): (delta: Vec)
    requires |value| == |memory|
    ensures |delta| == |value|
  {
    seq(|value|, c requires 0 <= c < |value| => (value[c] - memory[c]) * beta)
  }

  function AddOuter(state: State, key: Vec, delta: Vec, vd: nat): (sum: State)
    requires Widths(state, vd) && |key| == |state| && |delta| == vd
    ensures StateOk(sum, |state|, vd)
  {
    seq(|state|, r requires 0 <= r < |state| => Add(state[r], Scale(delta, key[r])))
  }

  function Advance(exp: real -> real, state: State, x: Step, kd: nat, vd: nat): (next: State)
    requires StateOk(state, kd, vd) && StepOk(x, kd, vd)
    ensures StateOk(next, kd, vd)
  {
    var decayed := Decay(state, exp(x.g), vd);
    AddOuter(decayed, x.key, Delta(x.value, Contract(decayed, x.key, vd), x.beta), vd)
  }

  function ZeroState(kd: nat, vd: nat): (state: State)
    ensures StateOk(state, kd, vd)
  {
    ZeroRows(kd, vd)
  }

  /** The state after all of `steps`. */
  function After(exp: real -> real, start: State, steps: seq<Step>, kd: nat, vd: nat): (state: State)
    requires StateOk(start, kd, vd) && StepsOk(steps, kd, vd)
    ensures StateOk(state, kd, vd)
  {
    if steps == [] then start
    else Advance(exp, After(exp, start, steps[..|steps| - 1], kd, vd), steps[|steps| - 1], kd, vd)
  }

  /** The recurrence's output at position `p`. */
  function OutputAt(exp: real -> real, start: State, steps: seq<Step>, p: nat, kd: nat, vd: nat): (row: Vec)
    requires StateOk(start, kd, vd) && StepsOk(steps, kd, vd) && p < |steps|
    ensures |row| == vd
  {
    Contract(After(exp, start, steps[..p + 1], kd, vd), steps[p].query, vd)
  }

  /** `outs` are the outputs of the first positions. */
  predicate OutputsAre(exp: real -> real, start: State, steps: seq<Step>, outs: seq<Vec>, kd: nat, vd: nat)
    requires StateOk(start, kd, vd) && StepsOk(steps, kd, vd) && |outs| <= |steps|
  {
    forall p: nat | p < |outs| :: outs[p] == OutputAt(exp, start, steps, p, kd, vd)
  }

  /** One position: decay, read the memory, write the correction, read the output. */
  method ScanStep(exp: real -> real, start: State, steps: seq<Step>, t: nat, state: State, kd: nat, vd: nat)
    returns (next: State, row: Vec)
    requires StateOk(start, kd, vd) && StepsOk(steps, kd, vd) && t < |steps|
    requires state == After(exp, start, steps[..t], kd, vd)
    ensures next == After(exp, start, steps[..t + 1], kd, vd) && row == OutputAt(exp, start, steps, t, kd, vd)
  {
    var x := steps[t];
    next := Decay(state, exp(x.g), vd);
    var memory := Contract(next, x.key, vd);
    var delta := Delta(x.value, memory, x.beta);
    next := AddOuter(next, x.key, delta, vd);
    AfterStep(exp, start, steps, t, state, next, kd, vd);
    row := Contract(next, x.query, vd);
  }

  lemma AfterStep(exp: real -> real, start: State, steps: seq<Step>, t: nat, state: State, next: State, kd: nat,
                  vd: nat)
    requires StateOk(start, kd, vd) && StepsOk(steps, kd, vd) && t < |steps|
    requires state == After(exp, start, steps[..t], kd, vd) && next == Advance(exp, state, steps[t], kd, vd)
    ensures next == After(exp, start, steps[..t + 1], kd, vd)
  {
    assert steps[..t + 1][..t] == steps[..t];
  }

  lemma OneMoreOutput(exp: real -> real, start: State, steps: seq<Step>, outs: seq<Vec>, row: Vec, kd: nat, vd: nat)
    requires StateOk(start, kd, vd) && StepsOk(steps, kd, vd) && |outs| < |steps|
    requires OutputsAre(exp, start, steps, outs, kd, vd) && row == OutputAt(exp, start, steps, |outs|, kd, vd)
    ensures OutputsAre(exp, start, steps, outs + [row], kd, vd)
  {
  }

  method Chunk(exp: real -> real, start: State, steps: seq<Step>, before: seq<Vec>, entry: State, end: nat, kd: nat,
               vd: nat)
    returns (outs: seq<Vec>, state: State)
    requires StateOk(start, kd, vd) && StepsOk(steps, kd, vd) && |before| <= end <= |steps|
    requires OutputsAre(exp, start, steps, before, kd, vd) && entry == After(exp, start, steps[..|before|], kd, vd)
    ensures |outs| == end - |before| && OutputsAre(exp, start, steps, before + outs, kd, vd)
    ensures state == After(exp, start, steps[..end], kd, vd)
  {
    outs, state := [], entry;
    var t := |before|;
    assert before + outs == before;
    while t < end
      invariant |before| <= t <= end && |outs| == t - |before|
      invariant OutputsAre(exp, start, steps, before + outs, kd, vd) && state == After(exp, start, steps[..t], kd, vd)
    {
      var row;
      state, row := ScanStep(exp, start, steps, t, state, kd, vd);
      OneMoreOutput(exp, start, steps, before + outs, row, kd, vd);
      assert before + outs + [row] == before + (outs + [row]);
      outs := outs + [row];
      t := t + 1;
    }
  }

  /** The scan, chunk by chunk. Chunking does not show in the result. */
  method ChunkedScan(exp: real -> real, steps: seq<Step>, initial: Option<State>, chunkSize: int, kd: nat, vd: nat)
    returns (r: Result<(seq<Vec>, State)>)
    requires StepsOk(steps, kd, vd)
    ensures r.Ok? <==> (initial.Some? ==> StateOk(initial.value, kd, vd)) && (steps == [] || chunkSize > 0)
    ensures r.Ok? ==> ScanResult(exp, StartOf(initial, kd, vd), steps, r.value.0, r.value.1, kd, vd)
  {
    var start := StartOf(initial, kd, vd);
    if !StateOk(start, kd, vd) { return Err("linear attention initial state shape mismatch"); }
    if steps == [] { return Ok(([], start)); }
    if chunkSize <= 0 { return Err("CVERL_LINEAR_ATTN_CHUNK_SIZE must be positive"); }
    var outputs: seq<Vec>, state := [], start;
    var begin: nat := 0;
    while begin < |steps|
      invariant begin == |outputs| || (begin >= |steps| && |outputs| == |steps|)
      invariant |outputs| <= |steps| && OutputsAre(exp, start, steps, outputs, kd, vd)
      invariant state == After(exp, start, steps[..|outputs|], kd, vd)
      decreases |steps| - begin
    {
      var end := if begin + chunkSize < |steps| then begin + chunkSize else |steps|;
      var outs;
      outs, state := Chunk(exp, start, steps, outputs, state, end, kd, vd);
      outputs := outputs + outs;
      begin := begin + chunkSize;
    }
    assert steps[..|outputs|] == steps;
    return Ok((outputs, state));
  }

  predicate ScanResult(exp: real -> real, start: State, steps: seq<Step>, outs: seq<Vec>, state: State, kd: nat,
                       vd: nat)
    requires StepsOk(steps, kd, vd)
  {
    && StateOk(start, kd, vd) && |outs| == |steps|
    && OutputsAre(exp, start, steps, outs, kd, vd) && state == After(exp, start, steps, kd, vd)
  }

  // ----- splitting a scan

  lemma {:induction false} AfterConcat(exp: real -> real, start: State, a: seq<Step>, b: seq<Step>, middle: State,
                                       kd: nat, vd: nat)
    requires StateOk(start, kd, vd) && StepsOk(a, kd, vd) && StepsOk(b, kd, vd) && StepsOk(a + b, kd, vd)
    requires middle == After(exp, start, a, kd, vd)
    ensures After(exp, start, a + b, kd, vd) == After(exp, middle, b, kd, vd)
    decreases |b|
  {
    if b == [] {
      assert a + b == a;
    } else {
      var n := |b| - 1;
      assert (a + b)[..|a + b| - 1] == a + b[..n];
      AfterConcat(exp, start, a, b[..n], middle, kd, vd);
    }
  }

  function Pad(kd: nat, vd: nat): (x: Step)
    ensures StepOk(x, kd, vd)
  {
    Step(Zeros(kd), Zeros(kd), Zeros(vd), 0.0, 0.0)
  }

  /** A padded step leaves the state as it is. */
  lemma PadKeepsState(exp: real -> real, state: State, kd: nat, vd: nat)
    requires exp(0.0) == 1.0 && StateOk(state, kd, vd)
    ensures Advance(exp, state, Pad(kd, vd), kd, vd) == state
  {
    var next := Advance(exp, state, Pad(kd, vd), kd, vd);
    forall r | 0 <= r < kd ensures next[r] == state[r] {
      forall c | 0 <= c < vd ensures next[r][c] == state[r][c] {}
    }
  }

  lemma {:induction false} PadsKeepState(exp: real -> real, start: State, n: nat, pads: seq<Step>, kd: nat, vd: nat)
    requires exp(0.0) == 1.0 && StateOk(start, kd, vd)
    requires StepsOk(pads, kd, vd) && |pads| == n && forall i | 0 <= i < n :: pads[i] == Pad(kd, vd)
    ensures After(exp, start, pads, kd, vd) == start
  {
    if n > 0 {
      PadsKeepState(exp, start, n - 1, pads[..n - 1], kd, vd);
      PadKeepsState(exp, start, kd, vd);
    }
  }

  // ----- context-parallel ranks

  /** The sequence as the ranks hold it together. */
  function Padded(steps: seq<Step>, size: nat, kd: nat, vd: nat): (all: seq<Step>)
    requires size > 0
    ensures |all| == PaddedLength(|steps|, size)
    ensures forall p: nat | p < |all| :: all[p] == if p < |steps| then steps[p] else Pad(kd, vd)
  {
    steps + seq(PaddedLength(|steps|, size) - |steps|, _ => Pad(kd, vd))
  }

  lemma SliceOfPadded(steps: seq<Step>, r: nat, size: nat, kd: nat, vd: nat, shard: nat)
    requires r < size && shard == ShardSize(|steps|, size)
    ensures r * shard + shard <= PaddedLength(|steps|, size)
    ensures R.PaddedSlice(steps, r, size, Pad(kd, vd)) == Padded(steps, size, kd, vd)[r * shard..r * shard + shard]
  {
    ShardsCover(|steps|, size);
    MulAtLeast(size, r + 1, shard);
    assert (r + 1) * shard == r * shard + shard;
  }

  /** What the rank that owns the positions from `begin` on returns: the outputs there. */
  predicate RankOutput(exp: real -> real, all: seq<Step>, begin: nat, shard: nat, outs: seq<Vec>, kd: nat, vd: nat)
    requires StepsOk(all, kd, vd)
  {
    && |outs| == shard && begin + shard <= |all|
    && forall j: nat | j < shard :: outs[j] == OutputAt(exp, ZeroState(kd, vd), all, begin + j, kd, vd)
  }

  /** Every rank so far has returned its part. */
  predicate RankOutputs(exp: real -> real, all: seq<Step>, shard: nat, outputs: seq<seq<Vec>>, kd: nat, vd: nat)
    requires StepsOk(all, kd, vd)
  {
    forall r: nat | r < |outputs| :: RankOutput(exp, all, r * shard, shard, outputs[r], kd, vd)
  }

  lemma OneMoreRank(exp: real -> real, all: seq<Step>, shard: nat, outputs: seq<seq<Vec>>, outs: seq<Vec>, kd: nat,
                    vd: nat)
    requires StepsOk(all, kd, vd) && RankOutputs(exp, all, shard, outputs, kd, vd)
    requires RankOutput(exp, all, |outputs| * shard, shard, outs, kd, vd)
    ensures RankOutputs(exp, all, shard, outputs + [outs], kd, vd)
  {
  }

  /** A rank that starts from the state its predecessors leave continues their scan. */
  lemma RankContinues(exp: real -> real, all: seq<Step>, begin: nat, shard: nat, entry: State, outs: seq<Vec>,
                      state: State, kd: nat, vd: nat)
    requires StepsOk(all, kd, vd) && begin + shard <= |all|
    requires entry == After(exp, ZeroState(kd, vd), all[..begin], kd, vd)
    requires ScanResult(exp, entry, all[begin..begin + shard], outs, state, kd, vd)
    ensures state == After(exp, ZeroState(kd, vd), all[..begin + shard], kd, vd)
    ensures RankOutput(exp, all, begin, shard, outs, kd, vd)
  {
    EntryPlus(exp, all, begin, shard, entry, kd, vd);
    forall j: nat | j < shard ensures outs[j] == OutputAt(exp, ZeroState(kd, vd), all, begin + j, kd, vd) {
      OutputContinues(exp, all, begin, shard, entry, j, kd, vd);
      assert outs[j] == OutputAt(exp, entry, all[begin..begin + shard], j, kd, vd);
    }
  }

  lemma OutputContinues(exp: real -> real, all: seq<Step>, begin: nat, shard: nat, entry: State, j: nat, kd: nat,
                        vd: nat)
    requires StepsOk(all, kd, vd) && begin + shard <= |all| && j < shard
    requires entry == After(exp, ZeroState(kd, vd), all[..begin], kd, vd)
    ensures OutputAt(exp, entry, all[begin..begin + shard], j, kd, vd)
        == OutputAt(exp, ZeroState(kd, vd), all, begin + j, kd, vd)
  {
    EntryPlus(exp, all, begin, j + 1, entry, kd, vd);
    assert all[begin..begin + shard][..j + 1] == all[begin..begin + (j + 1)];
  }

  lemma EntryPlus(exp: real -> real, all: seq<Step>, begin: nat, n: nat, entry: State, kd: nat, vd: nat)
    requires StepsOk(all, kd, vd) && begin + n <= |all|
    requires entry == After(exp, ZeroState(kd, vd), all[..begin], kd, vd)
    ensures After(exp, entry, all[begin..begin + n], kd, vd) == After(exp, ZeroState(kd, vd), all[..begin + n], kd, vd)
  {
    assert all[..begin] + all[begin..begin + n] == all[..begin + n];
    AfterConcat(exp, ZeroState(kd, vd), all[..begin], all[begin..begin + n], entry, kd, vd);
  }

  /** One rank: its padded slice, scanned from the received state. */
  method RankScan(exp: real -> real, steps: seq<Step>, rank: nat, size: nat, message: Option<State>, chunkSize: nat,
                  ghost all: seq<Step>, ghost shard: nat, ghost begin: nat, kd: nat, vd: nat) returns (outs: seq<Vec>,
                    state: State)
    requires rank < size && chunkSize > 0 && StepsOk(steps, kd, vd)
    requires all == Padded(steps, size, kd, vd) && shard == ShardSize(|steps|, size) && begin == rank * shard <= |all|
    requires StartOf(message, kd, vd) == After(exp, ZeroState(kd, vd), all[..begin], kd, vd)
    ensures RankOutput(exp, all, begin, shard, outs, kd, vd) && begin + shard <= |all|
    ensures state == After(exp, ZeroState(kd, vd), all[..begin + shard], kd, vd)
  {
    SliceOfPadded(steps, rank, size, kd, vd, shard);
    outs, state := ScanPart(exp, R.PaddedSlice(steps, rank, size, Pad(kd, vd)), message, chunkSize, all, shard, begin,
      kd, vd);
  }

  function StartOf(message: Option<State>, kd: nat, vd: nat): State {
    if message.Some? then message.value else ZeroState(kd, vd)
  }

  method ScanPart(exp: real -> real, part: seq<Step>, message: Option<State>, chunkSize: nat,
                  ghost all: seq<Step>, ghost shard: nat, ghost begin: nat, kd: nat, vd: nat) returns (outs: seq<Vec>,
                    state: State)
    requires chunkSize > 0 && StepsOk(all, kd, vd) && begin + shard <= |all| && part == all[begin..begin + shard]
    requires StartOf(message, kd, vd) == After(exp, ZeroState(kd, vd), all[..begin], kd, vd)
    ensures RankOutput(exp, all, begin, shard, outs, kd, vd)
    ensures state == After(exp, ZeroState(kd, vd), all[..begin + shard], kd, vd)
  {
    var scan := ChunkedScan(exp, part, message, chunkSize, kd, vd);
    outs, state := scan.value.0, scan.value.1;
    RankContinues(exp, all, begin, shard, StartOf(message, kd, vd), outs, state, kd, vd);
  }

  /** All ranks: rank 0 starts from zero, every other rank receives the state its predecessor sends. */
  method ContextScan(exp: real -> real, steps: seq<Step>, size: nat, chunkSize: nat, kd: nat, vd: nat)
    returns (outputs: seq<seq<Vec>>, last: State)
    requires size > 0 && chunkSize > 0 && StepsOk(steps, kd, vd)
    ensures |outputs| == size
    ensures RankOutputs(exp, Padded(steps, size, kd, vd), ShardSize(|steps|, size), outputs, kd, vd)
    ensures last == After(exp, ZeroState(kd, vd), Padded(steps, size, kd, vd), kd, vd)
  {
    hide Padded, ShardSize, RankOutput, StateOk;
    ghost var all := Padded(steps, size, kd, vd);
    ghost var shard := ShardSize(|steps|, size);
    ghost var begin: nat := 0;
    outputs, last := [], ZeroState(kd, vd);
    var message: Option<State> := None;
    var rank: nat := 0;
    while rank < size
      invariant rank <= size && |outputs| == rank && (message.Some? <==> rank > 0) && begin == rank * shard <= |all|
      invariant last == After(exp, ZeroState(kd, vd), all[..begin], kd, vd)
      invariant last == StartOf(message, kd, vd)
      invariant RankOutputs(exp, all, shard, outputs, kd, vd)
    {
      var outs;
      outs, last := RankScan(exp, steps, rank, size, message, chunkSize, all, shard, begin, kd, vd);
      OneMoreRank(exp, all, shard, outputs, outs, kd, vd);
      assert (rank + 1) * shard == begin + shard;
      outputs, message := outputs + [outs], Some(last);
      rank, begin := rank + 1, begin + shard;
    }
    ShardsCover(|steps|, size);
    assert all[..begin] == all;
  }

  /** The ranks' outputs in rank order, cut to the original length, are the one-process recurrence. */
  lemma ContextEqualsSequential(exp: real -> real, steps: seq<Step>, size: nat, outputs: seq<seq<Vec>>, p: nat,
                                kd: nat, vd: nat)
    requires size > 0 && StepsOk(steps, kd, vd) && |outputs| == size && p < |steps|
    requires RankOutputs(exp, Padded(steps, size, kd, vd), ShardSize(|steps|, size), outputs, kd, vd)
    ensures p < |Gather(outputs)| && Gather(outputs)[p] == OutputAt(exp, ZeroState(kd, vd), steps, p, kd, vd)
  {
    var all, shard := Padded(steps, size, kd, vd), ShardSize(|steps|, size);
    ShardsCover(|steps|, size);
    var r, j := Locate(p, shard, size);
    assert RankOutput(exp, all, r * shard, shard, outputs[r], kd, vd);
    GatherAt(outputs, shard, r, j);
    assert all[..p + 1] == steps[..p + 1];
  }

  /** The last rank ends with the state of the one-process scan: padding does not touch it. */
  lemma LastStateIsSequential(exp: real -> real, steps: seq<Step>, size: nat, kd: nat, vd: nat)
    requires exp(0.0) == 1.0 && size > 0 && StepsOk(steps, kd, vd)
    ensures After(exp, ZeroState(kd, vd), Padded(steps, size, kd, vd), kd, vd)
        == After(exp, ZeroState(kd, vd), steps, kd, vd)
  {
    var all := Padded(steps, size, kd, vd);
    var pads := all[|steps|..];
    var middle := After(exp, ZeroState(kd, vd), steps, kd, vd);
    assert all == steps + pads;
    AfterConcat(exp, ZeroState(kd, vd), steps, pads, middle, kd, vd);
    PadsKeepState(exp, middle, |pads|, pads, kd, vd);
  }
}

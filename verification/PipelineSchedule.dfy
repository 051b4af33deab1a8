/** The 1F1B program of a pipeline stage. */
module PipelineSchedule {
  import opened Results
  import opened Sequences

  datatype Phase = Warmup | Steady | Cooldown

  datatype Op = Forward | Backward

  datatype Action = Action(
    phase: Phase, op: Op, microBatch: nat,
    recvForward: bool, sendForward: bool, recvBackward: bool, sendBackward: bool)

  /** `stages` pipeline stages run `microBatches` micro-batches; the scheduler refuses fewer
      micro-batches than stages. */
  predicate Schedulable(stages: nat, microBatches: nat) {
    1 <= stages <= microBatches
  }

  function WarmupMicroBatches(stages: nat, microBatches: nat, stage: nat): nat
    requires stage < stages
  {
    Min(stages - stage - 1, microBatches)
  }

  function ForwardAction(stages: nat, stage: nat, phase: Phase, mb: nat): Action {
    Action(phase, Forward, mb, stage != 0, stage + 1 != stages, false, false)
  }

  function BackwardAction(stages: nat, stage: nat, phase: Phase, mb: nat): Action {
    Action(phase, Backward, mb, false, false, stage + 1 != stages, stage != 0)
  }

  /** Appends the three phases one loop at a time. */
  method Build1F1B(stages: nat, microBatches: nat, stage: nat) returns (r: Result<seq<Action>>)
    requires 1 <= stages && 1 <= microBatches && stage < stages
    ensures r.Ok? <==> (microBatches >= stages || stages <= 1)
    ensures r.Ok? ==> r.value == Program(stages, microBatches, stage)
  {
    if microBatches < stages && stages > 1 {
      return Err("1F1B requires micro_batches >= pipeline_parallel");
    }
    var warmup := WarmupMicroBatches(stages, microBatches, stage);
    var steady := microBatches - warmup;
    var actions: seq<Action> := [];
    var mb := 0;
    while mb < warmup
      invariant mb <= warmup
      invariant actions == Program(stages, microBatches, stage)[..mb]
    {
      actions := actions + [ForwardAction(stages, stage, Warmup, mb)];
      mb := mb + 1;
    }
    var i := 0;
    while i < steady
      invariant i <= steady
      invariant actions == Program(stages, microBatches, stage)[..warmup + 2 * i]
    {
      actions := actions + [ForwardAction(stages, stage, Steady, warmup + i)];
      assert actions == Program(stages, microBatches, stage)[..warmup + 2 * i + 1];
      actions := actions + [BackwardAction(stages, stage, Steady, i)];
      i := i + 1;
    }
    mb := steady;
    while mb < microBatches
      invariant steady <= mb <= microBatches
      invariant actions == Program(stages, microBatches, stage)[..microBatches + mb]
    {
      actions := actions + [BackwardAction(stages, stage, Cooldown, mb)];
      mb := mb + 1;
    }
    return Ok(actions);
  }

  /** The closed form of a stage's program: what stands at position `k`. */
  function ActionAt(stages: nat, microBatches: nat, stage: nat, k: nat): Action
    requires 1 <= stages && 1 <= microBatches && stage < stages && k < 2 * microBatches
  {
    var w := WarmupMicroBatches(stages, microBatches, stage);
    if k < w then ForwardAction(stages, stage, Warmup, k)
    else if k < 2 * microBatches - w then
      if (k - w) % 2 == 0 then ForwardAction(stages, stage, Steady, w + (k - w) / 2)
      else BackwardAction(stages, stage, Steady, (k - w) / 2)
    else BackwardAction(stages, stage, Cooldown, k - microBatches)
  }

  function Program(stages: nat, microBatches: nat, stage: nat): (p: seq<Action>)
    requires 1 <= stages && 1 <= microBatches && stage < stages
    ensures |p| == 2 * microBatches
  {
    seq(2 * microBatches, k requires 0 <= k < 2 * microBatches => ActionAt(stages, microBatches, stage, k))
  }

  // ----- counting forwards and backwards in a prefix of the program

  /** Forwards among the first `k` actions. */
  function Forwards(stages: nat, microBatches: nat, stage: nat, k: nat): (n: nat)
    requires stage < stages && k <= 2 * microBatches
    ensures n <= microBatches && n <= k
  {
    var w := WarmupMicroBatches(stages, microBatches, stage);
    if k <= w then k
    else if k <= 2 * microBatches - w then w + (k - w + 1) / 2
    else microBatches
  }

  /** Backwards among the first `k` actions. */
  function Backwards(stages: nat, microBatches: nat, stage: nat, k: nat): nat
    requires stage < stages && k <= 2 * microBatches
  {
    k - Forwards(stages, microBatches, stage, k)
  }

  /** Every micro-batch is run forward once and backward once, each in increasing order: the action
      at `k` is the next forward or the next backward, and its micro-batch number is how many of
      its kind came before. A backward is always preceded by its own forward. */
  lemma ProgramOrder(stages: nat, microBatches: nat, stage: nat, k: nat)
    requires 1 <= stages && 1 <= microBatches && stage < stages && k < 2 * microBatches
    ensures var a := Program(stages, microBatches, stage)[k];
            var f, b := Forwards(stages, microBatches, stage, k), Backwards(stages, microBatches, stage, k);
            && a.microBatch < microBatches
            && (a.op.Forward? ==>
                && a.microBatch == f
                && Forwards(stages, microBatches, stage, k + 1) == f + 1
                && Backwards(stages, microBatches, stage, k + 1) == b)
            && (a.op.Backward? ==>
                && a.microBatch == b < f
                && Forwards(stages, microBatches, stage, k + 1) == f
                && Backwards(stages, microBatches, stage, k + 1) == b + 1)
  {
  }

  /** The shape of a program: as many warm-up forwards as stages follow, then one forward and one backward by
      turns, then the remaining backwards. Each action talks to the neighbour on the side its operation comes
      from and goes to, unless the pipeline ends there. */
  lemma ProgramShape(stages: nat, microBatches: nat, stage: nat, k: nat)
    requires Schedulable(stages, microBatches) && stage < stages && k < 2 * microBatches
    ensures var a, later := Program(stages, microBatches, stage)[k], stages - 1 - stage;
            && (a.phase.Warmup? <==> k < later) && (a.phase.Cooldown? <==> k >= 2 * microBatches - later)
            && (a.op.Forward? <==> a.phase.Warmup? || (a.phase.Steady? && (k - later) % 2 == 0))
            && (a.recvForward <==> a.op.Forward? && stage > 0)
            && (a.sendForward <==> a.op.Forward? && later > 0)
            && (a.recvBackward <==> a.op.Backward? && later > 0)
            && (a.sendBackward <==> a.op.Backward? && stage > 0)
  {
  }

  // ----- live activations

  /** Live activations after the first `k` actions; negative when a backward came too early. */
  function Live(actions: seq<Action>, k: nat): int
    requires k <= |actions|
  {
    if k == 0 then 0
    else Live(actions, k - 1) + (if actions[k - 1].op.Forward? then 1 else -1)
  }

  method MaxLiveActivations(actions: seq<Action>) returns (r: Result<nat>)
    ensures r.Ok? <==> (forall k :: 0 <= k <= |actions| ==> Live(actions, k) >= 0) && Live(actions, |actions|) == 0
    ensures r.Ok? ==> exists k :: 0 <= k <= |actions| && Live(actions, k) == r.value
    ensures r.Ok? ==> forall k :: 0 <= k <= |actions| ==> Live(actions, k) <= r.value
  {
    var live := 0;
    var maxLive := 0;
    var k := 0;
    while k < |actions|
      invariant k <= |actions|
      invariant live == Live(actions, k) >= 0
      invariant forall j :: 0 <= j <= k ==> 0 <= Live(actions, j) <= maxLive
      invariant exists j :: 0 <= j <= k && Live(actions, j) == maxLive
    {
      if actions[k].op.Forward? {
        live := live + 1;
        if live > maxLive {
          maxLive := live;
          assert Live(actions, k + 1) == maxLive;
        }
      } else {
        if live <= 0 {
          assert Live(actions, k + 1) < 0;
          return Err("invalid 1F1B schedule: backward before matching forward");
        }
        live := live - 1;
      }
      k := k + 1;
    }
    if live != 0 {
      return Err("invalid 1F1B schedule: unmatched forward activations");
    }
    return Ok(maxLive);
  }

  lemma {:induction false} LiveIsForwardsMinusBackwards(stages: nat, microBatches: nat, stage: nat, k: nat)
    requires 1 <= stages && 1 <= microBatches && stage < stages && k <= 2 * microBatches
    ensures Live(Program(stages, microBatches, stage), k)
         == Forwards(stages, microBatches, stage, k) - Backwards(stages, microBatches, stage, k)
  {
    if k > 0 {
      LiveIsForwardsMinusBackwards(stages, microBatches, stage, k - 1);
      ProgramOrder(stages, microBatches, stage, k - 1);
    }
  }

  /** Stage `stage` of a 1F1B pipeline passes the check and peaks at exactly `stages - stage` live activations. */
  lemma PeakIsExact(stages: nat, microBatches: nat, stage: nat)
    requires Schedulable(stages, microBatches) && stage < stages
    ensures var p := Program(stages, microBatches, stage);
            && Live(p, |p|) == 0
            && (forall k :: 0 <= k <= |p| ==> 0 <= Live(p, k) <= stages - stage)
            && (exists k :: 0 <= k <= |p| && Live(p, k) == stages - stage)
  {
    var p := Program(stages, microBatches, stage);
    forall k | 0 <= k <= |p| ensures 0 <= Live(p, k) <= stages - stage {
      LiveIsForwardsMinusBackwards(stages, microBatches, stage, k);
    }
    LiveIsForwardsMinusBackwards(stages, microBatches, stage, |p|);
    LiveIsForwardsMinusBackwards(stages, microBatches, stage, stages - stage);
    assert Live(p, stages - stage) == stages - stage;
  }

  /** The check run on the scheduler's own output. */
  method PeakOfSchedule(stages: nat, microBatches: nat, stage: nat) returns (peak: nat)
    requires Schedulable(stages, microBatches) && stage < stages
    ensures peak == stages - stage
  {
    var built := Build1F1B(stages, microBatches, stage);
    PeakIsExact(stages, microBatches, stage);
    var r := MaxLiveActivations(built.value);
    peak := r.value;
  }
}

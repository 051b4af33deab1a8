/** The trainer's execution of the 1F1B programs: every stage is a process, neighbours exchange
    activations and gradients over untagged first-in first-out channels of bounded capacity. */
module PipelineRun {
  import opened PipelineRounds
  import opened PipelineSchedule
  import opened Results

  // ----- values are free terms, so equal terms mean equal tensors whatever the layers compute

  datatype Activation = Tokens(microBatch: nat) | Layer(stage: nat, input: Activation)

  /** A gradient with respect to an activation; `Plus` is autograd's accumulation into a leaf. */
  datatype Gradient =
    | LossGradient(microBatch: nat, output: Activation)
    | InputGradient(output: Activation, outputGradient: Gradient)
    | Plus(left: Gradient, right: Gradient)

  /** What one backward call adds to the stage's parameter gradients. */
  datatype Contribution = Contribution(output: Activation, outputGradient: Gradient)

  /** A received stage input is an autograd leaf. */
  datatype Leaf = Leaf(value: Activation, gradient: Option<Gradient>)

  /** `started`: the receive and the computation of action `pc` are done, its send is not. */
  datatype Stage = Stage(
    pc: nat, started: bool,
    inputs: map<nat, Leaf>, outputs: map<nat, Activation>, contributions: seq<Contribution>)

  /** `forward[s]` leads from stage s to s + 1, `backward[s]` from s + 1 to s. */
  datatype State = State(stages: seq<Stage>, forward: seq<seq<Activation>>, backward: seq<seq<Gradient>>)

  /** `rounds` accumulation steps of `microBatches` micro-batches each, one behind the other without a barrier. */
  datatype Config = Config(stages: nat, microBatches: nat, rounds: nat, capacity: nat)

  /** What happens when the scheduler picks one stage. */
  datatype Outcome = Blocked | Threw(message: string) | Moved(next: State)

  predicate ValidConfig(c: Config) {
    Schedulable(c.stages, c.microBatches) && c.rounds >= 1
  }

  /** Micro-batches of the whole accumulation. */
  function Total(c: Config): nat {
    c.microBatches * c.rounds
  }

  predicate Shaped(c: Config, st: State) {
    && |st.stages| == |st.forward| == |st.backward| == c.stages
    && forall s | 0 <= s < c.stages :: st.stages[s].pc <= 2 * Total(c)
  }

  function Initial(c: Config): State {
    State(seq(c.stages, _ => Stage(0, false, map[], map[], [])), seq(c.stages, _ => []), seq(c.stages, _ => []))
  }

  predicate Finished(c: Config, st: State)
    requires Shaped(c, st)
  {
    forall s | 0 <= s < c.stages :: st.stages[s].pc == 2 * Total(c)
  }

  /** The next action of a stage, if it has one. */
  function NextAction(c: Config, st: State, s: nat): Action
    requires ValidConfig(c) && Shaped(c, st) && s < c.stages && st.stages[s].pc < 2 * Total(c)
  {
    RunAction(c.stages, c.microBatches, s, st.stages[s].pc)
  }

  function Step(c: Config, st: State, s: nat): Outcome
    requires ValidConfig(c) && Shaped(c, st) && s < c.stages
  {
    if st.stages[s].pc == 2 * Total(c) then Blocked
    else
      var a := NextAction(c, st, s);
      match (a.op, st.stages[s].started)
      case (Forward, false) => StartForward(c, st, s, a)
      case (Forward, true) => EndForward(c, st, s, a)
      case (Backward, false) => StartBackward(c, st, s, a)
      case (Backward, true) => EndBackward(c, st, s, a)
  }

  /** Obtain the input (token embeddings on the first stage, a receive elsewhere) and run the layers. */
  function StartForward(c: Config, st: State, s: nat, a: Action): Outcome
    requires ValidConfig(c) && Shaped(c, st) && s < c.stages
  {
    var me := st.stages[s];
    var mb := a.microBatch;
    if s == 0 then
      var me' := me.(started := true, outputs := me.outputs[mb := Layer(s, Tokens(mb))]);
      Moved(st.(stages := st.stages[s := me']))
    else if st.forward[s - 1] == [] then Blocked
    else
      var input := st.forward[s - 1][0];
      var me' := me.(started := true,
                     inputs := me.inputs[mb := Leaf(input, None)],
                     outputs := me.outputs[mb := Layer(s, input)]);
      Moved(st.(stages := st.stages[s := me'], forward := st.forward[s - 1 := st.forward[s - 1][1..]]))
  }

  /** Send the activation on, unless this is the last stage. */
  function EndForward(c: Config, st: State, s: nat, a: Action): Outcome
    requires ValidConfig(c) && Shaped(c, st) && s < c.stages && st.stages[s].pc < 2 * Total(c)
  {
    var me := st.stages[s];
    var me' := me.(pc := me.pc + 1, started := false);
    if s + 1 == c.stages then Moved(st.(stages := st.stages[s := me']))
    else if |st.forward[s]| >= c.capacity || a.microBatch !in me.outputs then Blocked
    else
      Moved(st.(stages := st.stages[s := me'],
                forward := st.forward[s := st.forward[s] + [me.outputs[a.microBatch]]]))
  }

  /** Obtain the gradient of the stage output (from the loss on the last stage, a receive elsewhere)
      and run the backward pass, which leaves a gradient in the stage input leaf. */
  function StartBackward(c: Config, st: State, s: nat, a: Action): Outcome
    requires ValidConfig(c) && Shaped(c, st) && s < c.stages
  {
    var me := st.stages[s];
    var mb := a.microBatch;
    if mb !in me.outputs then Threw("missing stage activation for backward")
    else if s + 1 == c.stages then
      Moved(st.(stages := st.stages[s := RunBackward(me, mb, LossGradient(mb, me.outputs[mb]))]))
    else if st.backward[s] == [] then Blocked
    else
      Moved(st.(stages := st.stages[s := RunBackward(me, mb, st.backward[s][0])],
                backward := st.backward[s := st.backward[s][1..]]))
  }

  function RunBackward(me: Stage, mb: nat, g: Gradient): Stage
    requires mb in me.outputs
  {
    var inputs := if mb in me.inputs then me.inputs[mb := AddGradient(me.inputs[mb], InputGradient(me.outputs[mb], g))]
                  else me.inputs;
    me.(started := true, inputs := inputs, contributions := me.contributions + [Contribution(me.outputs[mb], g)])
  }

  function AddGradient(leaf: Leaf, g: Gradient): Leaf {
    leaf.(gradient := Some(if leaf.gradient.None? then g else Plus(leaf.gradient.value, g)))
  }

  /** Send the input gradient back, unless this is the first stage, and clear both slots. */
  function EndBackward(c: Config, st: State, s: nat, a: Action): Outcome
    requires ValidConfig(c) && Shaped(c, st) && s < c.stages && st.stages[s].pc < 2 * Total(c)
  {
    var me := st.stages[s];
    var mb := a.microBatch;
    var me' := me.(pc := me.pc + 1, started := false, inputs := me.inputs - {mb}, outputs := me.outputs - {mb});
    if s == 0 then Moved(st.(stages := st.stages[s := me']))
    else if mb !in me.inputs || me.inputs[mb].gradient.None? then Threw("missing stage input for backward")
    else if |st.backward[s - 1]| >= c.capacity then Blocked
    else
      Moved(st.(stages := st.stages[s := me'],
                backward := st.backward[s - 1 := st.backward[s - 1] + [me.inputs[mb].gradient.value]]))
  }

  // ----- the unpipelined reference: one process, one micro-batch at a time

  function StageInput(s: nat, mb: nat): Activation {
    if s == 0 then Tokens(mb) else Layer(s - 1, StageInput(s - 1, mb))
  }

  function StageOutput(s: nat, mb: nat): Activation {
    Layer(s, StageInput(s, mb))
  }

  function OutputGradient(stages: nat, s: nat, mb: nat): Gradient
    requires s < stages
    decreases stages - s
  {
    if s + 1 == stages then LossGradient(mb, StageOutput(s, mb))
    else InputGradient(StageOutput(s + 1, mb), OutputGradient(stages, s + 1, mb))
  }

  function InputGradientOf(stages: nat, s: nat, mb: nat): Gradient
    requires s < stages
  {
    InputGradient(StageOutput(s, mb), OutputGradient(stages, s, mb))
  }

  function ReferenceContributions(stages: nat, s: nat, count: nat): seq<Contribution>
    requires s < stages
  {
    seq(count, mb requires 0 <= mb => Contribution(StageOutput(s, mb), OutputGradient(stages, s, mb)))
  }

  // ----- progress of a stage, counted in micro-batches

  /** Forwards sent and received, backwards sent and received (the ends of the pipeline count theirs too). */
  datatype Counts = Counts(fSent: nat, fRecv: nat, bSent: nat, bRecv: nat)

  function CountsOf(c: Config, s: nat, me: Stage): Counts
    requires ValidConfig(c) && s < c.stages && me.pc <= 2 * Total(c)
  {
    var f := RunForwards(c.stages, c.microBatches, s, me.pc);
    var b := RunBackwards(c.stages, c.microBatches, s, me.pc);
    if !me.started || me.pc == 2 * Total(c) then Counts(f, f, b, b)
    else if RunAction(c.stages, c.microBatches, s, me.pc).op.Forward? then Counts(f, f + 1, b, b)
    else Counts(f, f, b, b + 1)
  }

  function AllCounts(c: Config, st: State): (k: seq<Counts>)
    requires ValidConfig(c) && Shaped(c, st)
    ensures |k| == c.stages
    ensures forall s | 0 <= s < c.stages :: k[s] == CountsOf(c, s, st.stages[s])
  {
    seq(c.stages, s requires 0 <= s < c.stages => CountsOf(c, s, st.stages[s]))
  }

  // ----- the invariant

  function OutputSlots(s: nat, k: Counts): map<nat, Activation> {
    map mb: nat | k.bSent <= mb < k.fRecv :: StageOutput(s, mb)
  }

  /** The first stage keeps no inputs; elsewhere the leaf of the micro-batch amid its backward has its gradient. */
  function InputSlots(stages: nat, s: nat, k: Counts): map<nat, Leaf>
    requires s < stages
  {
    if s == 0 then map[]
    else map mb: nat | k.bSent <= mb < k.fRecv ::
           Leaf(StageInput(s, mb), if mb < k.bRecv then Some(InputGradientOf(stages, s, mb)) else None)
  }

  ghost predicate StageInvariant(stages: nat, s: nat, me: Stage, k: Counts)
    requires s < stages
  {
    && k.bRecv <= k.fRecv
    && me.outputs == OutputSlots(s, k)
    && me.inputs == InputSlots(stages, s, k)
    && me.contributions == ReferenceContributions(stages, s, k.bRecv)
  }

  /** The channel holds the activations sent by `s` and not yet received by its successor, oldest first. */
  ghost predicate ForwardInvariant(capacity: nat, s: nat, from: Counts, to: Counts, channel: seq<Activation>) {
    && |channel| <= capacity
    && from.fSent == to.fRecv + |channel|
    && forall i | 0 <= i < |channel| :: channel[i] == StageOutput(s, to.fRecv + i)
  }

  /** The channel holds the gradients sent by `s` + 1 and not yet received by `s`, oldest first. */
  ghost predicate BackwardInvariant(stages: nat, capacity: nat, s: nat, from: Counts, to: Counts,
                                    channel: seq<Gradient>)
    requires s + 1 < stages
  {
    && |channel| <= capacity
    && from.bSent == to.bRecv + |channel|
    && forall i | 0 <= i < |channel| :: channel[i] == InputGradientOf(stages, s + 1, to.bRecv + i)
  }

  ghost predicate Consistent(c: Config, st: State, k: seq<Counts>)
    requires ValidConfig(c) && Shaped(c, st) && |k| == c.stages
  {
    && (forall s | 0 <= s < c.stages :: StageInvariant(c.stages, s, st.stages[s], k[s]))
    && (forall s | 0 <= s < c.stages - 1 :: ForwardInvariant(c.capacity, s, k[s], k[s + 1], st.forward[s]))
    && (forall s | 0 <= s < c.stages - 1 :: BackwardInvariant(c.stages, c.capacity, s, k[s + 1], k[s], st.backward[s]))
  }

  ghost predicate Invariant(c: Config, st: State) {
    && ValidConfig(c)
    && Shaped(c, st)
    && (forall s | 0 <= s < c.stages :: st.stages[s].started ==> st.stages[s].pc < 2 * Total(c))
    && Consistent(c, st, AllCounts(c, st))
  }

  lemma InitialInvariant(c: Config)
    requires ValidConfig(c)
    ensures Invariant(c, Initial(c))
  {
    forall s | 0 <= s < c.stages ensures AllCounts(c, Initial(c))[s] == Counts(0, 0, 0, 0) {
      RunEnds(c.stages, c.microBatches, c.rounds, s, 2 * Total(c));
    }
  }

  /** What the next action says about the counts: it names the next micro-batch of its kind. */
  lemma NextCounts(c: Config, st: State, s: nat)
    requires ValidConfig(c) && Shaped(c, st) && s < c.stages && st.stages[s].pc < 2 * Total(c)
    ensures var a, me, k := NextAction(c, st, s), st.stages[s], CountsOf(c, s, st.stages[s]);
            var begun := if me.started then 1 else 0;
            && (a.op.Forward? ==> a.microBatch == k.fSent && k == Counts(k.fSent, k.fSent + begun, k.bSent, k.bSent))
            && (a.op.Backward? ==> a.microBatch == k.bSent < k.fSent)
            && (a.op.Backward? ==> k == Counts(k.fSent, k.fSent, k.bSent, k.bSent + begun))
            && CountsOf(c, s, me.(started := true))
               == (if a.op.Forward? then k.(fRecv := k.fSent + 1) else k.(bRecv := k.bSent + 1))
            && CountsOf(c, s, me.(pc := me.pc + 1, started := false))
               == (if a.op.Forward? then k.(fSent := k.fSent + 1, fRecv := k.fSent + 1)
                   else k.(bSent := k.bSent + 1, bRecv := k.bSent + 1))
  {
    RunOrder(c.stages, c.microBatches, s, st.stages[s].pc);
  }

  /** Counts look only at a stage's position. */
  lemma CountsIgnoreSlots(c: Config, s: nat, a: Stage, b: Stage)
    requires ValidConfig(c) && s < c.stages && a.pc == b.pc <= 2 * Total(c) && a.started == b.started
    ensures CountsOf(c, s, a) == CountsOf(c, s, b)
  {
  }

  /** The counts after the stage's next step. */
  function Advanced(k: Counts, a: Action, started: bool): Counts {
    match (a.op, started)
    case (Forward, false) => k.(fRecv := a.microBatch + 1)
    case (Forward, true) => k.(fSent := a.microBatch + 1)
    case (Backward, false) => k.(bRecv := a.microBatch + 1)
    case (Backward, true) => k.(bSent := a.microBatch + 1)
  }

  /** A step moves the position of its own stage only. */
  lemma StepMovesOneStage(c: Config, st: State, s: nat)
    requires ValidConfig(c) && Shaped(c, st) && s < c.stages && Step(c, st, s).Moved?
    ensures var st' := Step(c, st, s).next; var me, me' := st.stages[s], st'.stages[s];
            && Shaped(c, st')
            && st'.stages == st.stages[s := me']
            && me.pc < 2 * Total(c)
            && me'.pc == (if me.started then me.pc + 1 else me.pc)
            && me'.started == !me.started
  {
  }

  lemma StepAdvancesCounts(c: Config, st: State, s: nat)
    requires ValidConfig(c) && Shaped(c, st) && s < c.stages && Step(c, st, s).Moved?
    ensures Shaped(c, Step(c, st, s).next) && st.stages[s].pc < 2 * Total(c)
    ensures AllCounts(c, Step(c, st, s).next)
         == AllCounts(c, st)[s := Advanced(CountsOf(c, s, st.stages[s]), NextAction(c, st, s), st.stages[s].started)]
  {
    StepMovesOneStage(c, st, s);
    var me, st' := st.stages[s], Step(c, st, s).next;
    NextCounts(c, st, s);
    if me.started {
      CountsIgnoreSlots(c, s, st'.stages[s], me.(pc := me.pc + 1, started := false));
    } else {
      CountsIgnoreSlots(c, s, st'.stages[s], me.(started := true));
    }
  }

  lemma StepKeepsConsistency(c: Config, st: State, s: nat, k: seq<Counts>)
    requires ValidConfig(c) && Shaped(c, st) && s < c.stages && Step(c, st, s).Moved? && Shaped(c, Step(c, st, s).next)
    requires k == AllCounts(c, st) && Consistent(c, st, k) && st.stages[s].pc < 2 * Total(c)
    ensures Consistent(c, Step(c, st, s).next, k[s := Advanced(k[s], NextAction(c, st, s), st.stages[s].started)])
  {
    NextCounts(c, st, s);
    var a := NextAction(c, st, s);
    var next, x := Step(c, st, s).next, Advanced(k[s], a, st.stages[s].started);
    if a.op.Forward? && st.stages[s].started {
      assert EndForward(c, st, s, a).next == next && k[s].(fSent := a.microBatch + 1) == x;
      EndForwardKeeps(c, st, s, a, k);
    } else if a.op.Forward? {
      assert StartForward(c, st, s, a).next == next && k[s].(fRecv := a.microBatch + 1) == x;
      StartForwardKeeps(c, st, s, a, k);
    } else if st.stages[s].started {
      assert EndBackward(c, st, s, a).next == next && k[s].(bSent := a.microBatch + 1) == x;
      EndBackwardKeeps(c, st, s, a, k);
    } else {
      assert StartBackward(c, st, s, a).next == next && k[s].(bRecv := a.microBatch + 1) == x;
      StartBackwardKeeps(c, st, s, a, k);
    }
  }

  lemma StepKeepsInvariant(c: Config, st: State, s: nat)
    requires Invariant(c, st) && s < c.stages && Step(c, st, s).Moved?
    ensures Invariant(c, Step(c, st, s).next)
  {
    StepMovesOneStage(c, st, s);
    StepAdvancesCounts(c, st, s);
    StepKeepsConsistency(c, st, s, AllCounts(c, st));
  }

  /** A step of stage `s` is consistent once the stage and the two links beside it are. */
  lemma Reassemble(c: Config, st: State, k: seq<Counts>, s: nat, st': State, x: Counts)
    requires ValidConfig(c) && Shaped(c, st) && |k| == c.stages && Consistent(c, st, k) && s < c.stages
    requires Shaped(c, st')
    requires st'.stages == st.stages[s := st'.stages[s]]
    requires forall i | 0 <= i < c.stages && i != s && i + 1 != s ::
        st'.forward[i] == st.forward[i] && st'.backward[i] == st.backward[i]
    requires StageInvariant(c.stages, s, st'.stages[s], x)
    requires s + 1 < c.stages ==> ForwardInvariant(c.capacity, s, x, k[s + 1], st'.forward[s])
    requires s + 1 < c.stages ==> BackwardInvariant(c.stages, c.capacity, s, k[s + 1], x, st'.backward[s])
    requires s > 0 ==> ForwardInvariant(c.capacity, s - 1, k[s - 1], x, st'.forward[s - 1])
    requires s > 0 ==> BackwardInvariant(c.stages, c.capacity, s - 1, x, k[s - 1], st'.backward[s - 1])
    ensures Consistent(c, st', k[s := x])
  {
    var k' := k[s := x];
    forall i | 0 <= i < c.stages - 1
      ensures ForwardInvariant(c.capacity, i, k'[i], k'[i + 1], st'.forward[i])
      ensures BackwardInvariant(c.stages, c.capacity, i, k'[i + 1], k'[i], st'.backward[i])
    {
      assert ForwardInvariant(c.capacity, i, k[i], k[i + 1], st.forward[i]);
      assert BackwardInvariant(c.stages, c.capacity, i, k[i + 1], k[i], st.backward[i]);
    }
  }

  lemma StartForwardKeeps(c: Config, st: State, s: nat, a: Action, k: seq<Counts>)
    requires ValidConfig(c) && Shaped(c, st) && |k| == c.stages && Consistent(c, st, k) && s < c.stages
    requires k[s] == Counts(a.microBatch, a.microBatch, k[s].bSent, k[s].bSent) && StartForward(c, st, s, a).Moved?
    ensures Consistent(c, StartForward(c, st, s, a).next, k[s := k[s].(fRecv := a.microBatch + 1)])
  {
    hide OutputGradient, CountsOf;
    var st' := StartForward(c, st, s, a).next;
    Neighbours(c, st, s, k);
    if s > 0 {
      assert st.forward[s - 1][0] == StageInput(s, a.microBatch);
    }
    Reassemble(c, st, k, s, st', k[s].(fRecv := a.microBatch + 1));
  }

  lemma EndForwardKeeps(c: Config, st: State, s: nat, a: Action, k: seq<Counts>)
    requires ValidConfig(c) && Shaped(c, st) && |k| == c.stages && Consistent(c, st, k) && s < c.stages
    requires st.stages[s].pc < 2 * Total(c) && EndForward(c, st, s, a).Moved?
    requires k[s] == Counts(a.microBatch, a.microBatch + 1, k[s].bSent, k[s].bSent)
    ensures Consistent(c, EndForward(c, st, s, a).next, k[s := k[s].(fSent := a.microBatch + 1)])
  {
    hide StageOutput, OutputGradient;
    Neighbours(c, st, s, k);
    Reassemble(c, st, k, s, EndForward(c, st, s, a).next, k[s].(fSent := a.microBatch + 1));
  }

  lemma StartBackwardKeeps(c: Config, st: State, s: nat, a: Action, k: seq<Counts>)
    requires ValidConfig(c) && Shaped(c, st) && |k| == c.stages && Consistent(c, st, k) && s < c.stages
    requires a.microBatch < k[s].fSent && StartBackward(c, st, s, a).Moved?
    requires k[s] == Counts(k[s].fSent, k[s].fSent, a.microBatch, a.microBatch)
    ensures Consistent(c, StartBackward(c, st, s, a).next, k[s := k[s].(bRecv := a.microBatch + 1)])
  {
    hide CountsOf;
    Neighbours(c, st, s, k);
    Reassemble(c, st, k, s, StartBackward(c, st, s, a).next, k[s].(bRecv := a.microBatch + 1));
  }

  lemma EndBackwardKeeps(c: Config, st: State, s: nat, a: Action, k: seq<Counts>)
    requires ValidConfig(c) && Shaped(c, st) && |k| == c.stages && Consistent(c, st, k) && s < c.stages
    requires st.stages[s].pc < 2 * Total(c) && EndBackward(c, st, s, a).Moved?
    requires a.microBatch < k[s].fSent && k[s] == Counts(k[s].fSent, k[s].fSent, a.microBatch, a.microBatch + 1)
    ensures Consistent(c, EndBackward(c, st, s, a).next, k[s := k[s].(bSent := a.microBatch + 1)])
  {
    hide StageOutput, OutputGradient;
    Neighbours(c, st, s, k);
    Reassemble(c, st, k, s, EndBackward(c, st, s, a).next, k[s].(bSent := a.microBatch + 1));
  }

  /** The invariants of stage `s` and of the links beside it, singled out. */
  lemma Neighbours(c: Config, st: State, s: nat, k: seq<Counts>)
    requires ValidConfig(c) && Shaped(c, st) && |k| == c.stages && Consistent(c, st, k) && s < c.stages
    ensures StageInvariant(c.stages, s, st.stages[s], k[s])
    ensures s + 1 < c.stages ==> ForwardInvariant(c.capacity, s, k[s], k[s + 1], st.forward[s])
    ensures s + 1 < c.stages ==> BackwardInvariant(c.stages, c.capacity, s, k[s + 1], k[s], st.backward[s])
    ensures s > 0 ==> ForwardInvariant(c.capacity, s - 1, k[s - 1], k[s], st.forward[s - 1])
    ensures s > 0 ==> BackwardInvariant(c.stages, c.capacity, s - 1, k[s], k[s - 1], st.backward[s - 1])
  {
  }
}

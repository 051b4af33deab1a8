/** Progress of the pipeline: with room for one message per direction no interleaving deadlocks and
    every one ends in the unpipelined result; with rendezvous sends none ends. */
module PipelineProgress {
  import opened Chunks
  import opened PipelineRounds
  import opened PipelineRun
  import opened PipelineSchedule

  // ----- a potential that every wait decreases

  function ForwardTime(stages: nat, s: nat, mb: nat): nat
    requires s < stages
  {
    if mb < stages - 1 - s then s + mb else s + 2 * mb
  }

  function BackwardTime(stages: nat, s: nat, mb: nat): nat
    requires s < stages
  {
    2 * stages - 1 - s + 2 * mb
  }

  function ActionTime(stages: nat, s: nat, a: Action): nat
    requires s < stages
  {
    if a.op.Forward? then ForwardTime(stages, s, a.microBatch) else BackwardTime(stages, s, a.microBatch)
  }

  function TimeAt(stages: nat, microBatches: nat, s: nat, k: nat): nat
    requires Schedulable(stages, microBatches) && s < stages && k < 2 * microBatches
  {
    ActionTime(stages, s, Program(stages, microBatches, s)[k])
  }

  lemma TimeIncreasesByOne(stages: nat, microBatches: nat, s: nat, k: nat)
    requires Schedulable(stages, microBatches) && s < stages && k + 1 < 2 * microBatches
    ensures TimeAt(stages, microBatches, s, k) < TimeAt(stages, microBatches, s, k + 1)
  {
    ProgramOrder(stages, microBatches, s, k);
    ProgramOrder(stages, microBatches, s, k + 1);
  }

  lemma {:induction false} Rising(time: nat -> int, j: nat, k: nat)
    requires j <= k && forall i: nat | j <= i < k :: time(i) < time(i + 1)
    ensures time(j) + (k - j) <= time(k)
  {
    if j < k { Rising(time, j, k - 1); }
  }

  lemma TimeIncreases(stages: nat, microBatches: nat, s: nat, j: nat, k: nat)
    requires Schedulable(stages, microBatches) && s < stages && j <= k < 2 * microBatches
    ensures TimeAt(stages, microBatches, s, j) + (k - j) <= TimeAt(stages, microBatches, s, k)
  {
    var time := (i: nat) => if Schedulable(stages, microBatches)
      && i < 2 * microBatches then TimeAt(stages, microBatches, s, i) else 0;
    forall i: nat | j <= i < k ensures time(i) < time(i + 1) { TimeIncreasesByOne(stages, microBatches, s, i); }
    Rising(time, j, k);
  }

  /** Where micro-batch `mb` runs forward. */
  function ForwardPosition(stages: nat, microBatches: nat, s: nat, mb: nat): (k: nat)
    requires Schedulable(stages, microBatches) && s < stages && mb < microBatches
    ensures k < 2 * microBatches && Forwards(stages, microBatches, s, k) == mb
    ensures var a := Program(stages, microBatches, s)[k]; a.op.Forward? && a.microBatch == mb
  {
    var w := stages - 1 - s;
    if mb < w then mb else 2 * mb - w
  }

  function BackwardPosition(stages: nat, microBatches: nat, s: nat, mb: nat): (k: nat)
    requires Schedulable(stages, microBatches) && s < stages && mb < microBatches
    ensures k < 2 * microBatches && Backwards(stages, microBatches, s, k) == mb
    ensures var a := Program(stages, microBatches, s)[k]; a.op.Backward? && a.microBatch == mb
  {
    var w := stages - 1 - s;
    if mb < microBatches - w then w + 2 * mb + 1 else microBatches + mb
  }

  // ----- the potential through all rounds

  /** Every round is due this much later than the one before. */
  function Period(stages: nat, microBatches: nat): nat {
    2 * (stages + microBatches)
  }

  function RunTime(stages: nat, microBatches: nat, s: nat, k: nat): nat
    requires Schedulable(stages, microBatches) && s < stages
  {
    RoundOf(microBatches, k) * Period(stages, microBatches) + TimeAt(stages, microBatches, s, PlaceIn(microBatches, k))
  }

  function RunForwardTime(stages: nat, microBatches: nat, s: nat, round: nat, mb: nat): nat
    requires s < stages
  {
    round * Period(stages, microBatches) + ForwardTime(stages, s, mb)
  }

  function RunBackwardTime(stages: nat, microBatches: nat, s: nat, round: nat, mb: nat): nat
    requires s < stages
  {
    round * Period(stages, microBatches) + BackwardTime(stages, s, mb)
  }

  /** Micro-batch `mb` of round `round`, numbered through all rounds. */
  function Numbered(microBatches: nat, round: nat, mb: nat): nat {
    round * microBatches + mb
  }

  lemma RunTimeIncreasesByOne(stages: nat, microBatches: nat, s: nat, k: nat)
    requires Schedulable(stages, microBatches) && s < stages
    ensures RunTime(stages, microBatches, s, k) < RunTime(stages, microBatches, s, k + 1)
  {
    hide TimeAt, RoundOf, PlaceIn;
    var round, place := RoundOf(microBatches, k), PlaceIn(microBatches, k);
    NextPlace(microBatches, k, round, place);
    if place + 1 < 2 * microBatches {
      TimeIncreasesByOne(stages, microBatches, s, place);
    } else {
      LastTime(stages, microBatches, s);
      assert (round + 1) * Period(stages, microBatches) == round * Period(stages, microBatches)
        + Period(stages, microBatches);
    }
  }

  lemma LastTime(stages: nat, microBatches: nat, s: nat)
    requires Schedulable(stages, microBatches) && s < stages
    ensures TimeAt(stages, microBatches, s, 2 * microBatches - 1) < Period(stages, microBatches)
        + TimeAt(stages, microBatches, s, 0)
  {
    assert BackwardPosition(stages, microBatches, s, microBatches - 1) == 2 * microBatches - 1;
  }

  lemma RunTimeIncreases(stages: nat, microBatches: nat, s: nat, j: nat, k: nat)
    requires Schedulable(stages, microBatches) && s < stages && j <= k
    ensures RunTime(stages, microBatches, s, j) + (k - j) <= RunTime(stages, microBatches, s, k)
  {
    var time := (i: nat) => if Schedulable(stages, microBatches) && s < stages then RunTime(stages, microBatches, s, i)
      else 0;
    forall i: nat | j <= i < k ensures time(i) < time(i + 1) { RunTimeIncreasesByOne(stages, microBatches, s, i); }
    Rising(time, j, k);
  }

  lemma {:induction false} CountsMonotone(stages: nat, microBatches: nat, s: nat, j: nat, k: nat)
    requires Schedulable(stages, microBatches) && s < stages && j <= k
    ensures RunForwards(stages, microBatches, s, j) <= RunForwards(stages, microBatches, s, k)
    ensures RunBackwards(stages, microBatches, s, j) <= RunBackwards(stages, microBatches, s, k)
  {
    hide RunForwards, RunBackwards, RunAction;
    if j < k {
      CountsMonotone(stages, microBatches, s, j, k - 1);
      RunOrder(stages, microBatches, s, k - 1);
    }
  }

  /** The position of a round's place. */
  function PositionIn(microBatches: nat, round: nat, place: nat): nat {
    round * (2 * microBatches) + place
  }

  lemma AtForward(stages: nat, microBatches: nat, s: nat, round: nat, mb: nat, k: nat)
    requires Schedulable(stages, microBatches) && s < stages && mb < microBatches
    requires k == PositionIn(microBatches, round, ForwardPosition(stages, microBatches, s, mb))
    ensures var a := RunAction(stages, microBatches, s, k);
            a.op.Forward? && a.microBatch == Numbered(microBatches, round, mb)
    ensures RunForwards(stages, microBatches, s, k) == Numbered(microBatches, round, mb)
    ensures RunTime(stages, microBatches, s, k) == RunForwardTime(stages, microBatches, s, round, mb)
  {
    SplitPosition(microBatches, k, round, ForwardPosition(stages, microBatches, s, mb));
  }

  lemma AtBackward(stages: nat, microBatches: nat, s: nat, round: nat, mb: nat, k: nat)
    requires Schedulable(stages, microBatches) && s < stages && mb < microBatches
    requires k == PositionIn(microBatches, round, BackwardPosition(stages, microBatches, s, mb))
    ensures var a := RunAction(stages, microBatches, s, k);
            a.op.Backward? && a.microBatch == Numbered(microBatches, round, mb)
    ensures RunBackwards(stages, microBatches, s, k) == Numbered(microBatches, round, mb)
    ensures RunTime(stages, microBatches, s, k) == RunBackwardTime(stages, microBatches, s, round, mb)
  {
    SplitPosition(microBatches, k, round, BackwardPosition(stages, microBatches, s, mb));
  }

  /** A stage that still owes a forward is not past it. */
  lemma OwesForward(stages: nat, microBatches: nat, s: nat, pc: nat, round: nat, mb: nat)
    requires Schedulable(stages, microBatches) && s < stages && mb < microBatches
    requires RunForwards(stages, microBatches, s, pc) <= Numbered(microBatches, round, mb)
    ensures RunTime(stages, microBatches, s, pc) <= RunForwardTime(stages, microBatches, s, round, mb)
    ensures pc < PositionIn(microBatches, round + 1, 0)
    ensures var a := RunAction(stages, microBatches, s, pc);
            !(a.op.Forward? && a.microBatch == Numbered(microBatches, round, mb)) ==>
              RunTime(stages, microBatches, s, pc) < RunForwardTime(stages, microBatches, s, round, mb)
  {
    var place := ForwardPosition(stages, microBatches, s, mb);
    var k := PositionIn(microBatches, round, place);
    AtForward(stages, microBatches, s, round, mb, k);
    NotPast(stages, microBatches, s, pc, round, place, k);
  }

  lemma OwesBackward(stages: nat, microBatches: nat, s: nat, pc: nat, round: nat, mb: nat)
    requires Schedulable(stages, microBatches) && s < stages && mb < microBatches
    requires RunBackwards(stages, microBatches, s, pc) <= Numbered(microBatches, round, mb)
    ensures pc < PositionIn(microBatches, round + 1, 0)
    ensures RunTime(stages, microBatches, s, pc) <= RunBackwardTime(stages, microBatches, s, round, mb)
  {
    var place := BackwardPosition(stages, microBatches, s, mb);
    var k := PositionIn(microBatches, round, place);
    AtBackward(stages, microBatches, s, round, mb, k);
    NotPast(stages, microBatches, s, pc, round, place, k);
  }

  /** A stage whose counts have not passed those before the action at `k` is at most at `k`. */
  lemma NotPast(stages: nat, microBatches: nat, s: nat, pc: nat, round: nat, place: nat, k: nat)
    requires Schedulable(stages, microBatches) && s < stages && place < 2 * microBatches
    requires k == PositionIn(microBatches, round, place)
    requires if RunAction(stages, microBatches, s, k).op.Forward?
             then RunForwards(stages, microBatches, s, pc) <= RunForwards(stages, microBatches, s, k)
             else RunBackwards(stages, microBatches, s, pc) <= RunBackwards(stages, microBatches, s, k)
    ensures pc <= k < PositionIn(microBatches, round + 1, 0)
    ensures RunTime(stages, microBatches, s, pc) + (k - pc) <= RunTime(stages, microBatches, s, k)
  {
    hide RunForwards, RunBackwards, RunAction, RunTime;
    assert (round + 1) * (2 * microBatches) == round * (2 * microBatches) + 2 * microBatches;
    RunOrder(stages, microBatches, s, k);
    if k + 1 <= pc { CountsMonotone(stages, microBatches, s, k + 1, pc); }
    RunTimeIncreases(stages, microBatches, s, pc, k);
  }

  /** The end of a round is not past the end of the accumulation. */
  lemma RoundInside(microBatches: nat, rounds: nat, round: nat, mb: nat)
    requires microBatches > 0 && mb < microBatches && Numbered(microBatches, round, mb) < microBatches * rounds
    ensures PositionIn(microBatches, round + 1, 0) <= 2 * (microBatches * rounds)
  {
    if round >= rounds { MulAtLeast(round, rounds, microBatches); }
    MulAtLeast(rounds, round + 1, 2 * microBatches);
    assert 2 * (microBatches * rounds) == rounds * (2 * microBatches);
  }

  /** Round and number within it of a micro-batch numbered through all rounds. */
  lemma Renumber(microBatches: nat, mb: nat) returns (round: nat, local: nat)
    requires microBatches > 0
    ensures local < microBatches && mb == Numbered(microBatches, round, local)
  {
    round, local := mb / microBatches, mb % microBatches;
  }

  predicate AtAction(c: Config, s: nat, me: Stage, op: Op, mb: nat)
    requires ValidConfig(c) && s < c.stages
  {
    me.pc < 2 * Total(c) && var a := RunAction(c.stages, c.microBatches, s, me.pc); a.op == op && a.microBatch == mb
  }

  /** Sends count as half a time unit later than the receive and computation of the same action. */
  function Urgency(c: Config, s: nat, me: Stage): nat
    requires ValidConfig(c) && s < c.stages && me.pc < 2 * Total(c)
  {
    2 * RunTime(c.stages, c.microBatches, s, me.pc) + (if me.started then 1 else 0)
  }

  /** A blocked stage waits for a neighbour that is unfinished and whose next step is due earlier. */
  predicate DueEarlier(c: Config, s: nat, me: Stage, t: nat, other: Stage)
    requires ValidConfig(c) && s < c.stages && t < c.stages && me.pc < 2 * Total(c)
  {
    other.pc < 2 * Total(c) && Urgency(c, t, other) < Urgency(c, s, me)
  }

  /** The time of the action that a stage is at, by its micro-batch. */
  lemma TimeOfAction(c: Config, s: nat, me: Stage, round: nat, mb: nat)
    requires ValidConfig(c) && s < c.stages && me.pc < 2 * Total(c) && mb < c.microBatches
    requires RunAction(c.stages, c.microBatches, s, me.pc).microBatch == Numbered(c.microBatches, round, mb)
    ensures RunTime(c.stages, c.microBatches, s, me.pc)
         == if RunAction(c.stages, c.microBatches, s, me.pc).op.Forward? then
           RunForwardTime(c.stages, c.microBatches, s, round, mb)
            else RunBackwardTime(c.stages, c.microBatches, s, round, mb)
  {
    var r, place := RoundOf(c.microBatches, me.pc), PlaceIn(c.microBatches, me.pc);
    ProgramOrder(c.stages, c.microBatches, s, place);
    SameChunk(r, Program(c.stages, c.microBatches, s)[place].microBatch, round, mb, c.microBatches);
  }

  lemma AwaitedForwardIsDueEarlier(c: Config, s: nat, me: Stage, other: Stage, mb: nat)
    requires ValidConfig(c) && 0 < s < c.stages && AtAction(c, s, me, Forward, mb) && !me.started
    requires mb < Total(c) && other.pc <= 2 * Total(c) && CountsOf(c, s - 1, other).fSent == mb
    ensures DueEarlier(c, s, me, s - 1, other)
  {
    hide RunForwards, RunBackwards, RunTime;
    var round, local := Renumber(c.microBatches, mb);
    TimeOfAction(c, s, me, round, local);
    RoundInside(c.microBatches, c.rounds, round, local);
    OwesForward(c.stages, c.microBatches, s - 1, other.pc, round, local);
    FirstOfTwo(c.stages, c.microBatches, s, round, local);
  }

  lemma FirstOfTwo(stages: nat, microBatches: nat, s: nat, round: nat, mb: nat)
    requires 0 < s < stages
    ensures RunForwardTime(stages, microBatches, s - 1, round, mb) < RunForwardTime(stages, microBatches, s, round, mb)
  {
  }

  lemma AwaitedBackwardIsDueEarlier(c: Config, s: nat, me: Stage, other: Stage, mb: nat)
    requires ValidConfig(c) && s + 1 < c.stages && AtAction(c, s, me, Backward, mb) && !me.started
    requires mb < Total(c) && other.pc <= 2 * Total(c) && CountsOf(c, s + 1, other).bSent == mb
    ensures DueEarlier(c, s, me, s + 1, other)
  {
    hide RunForwards, RunBackwards, RunTime;
    var round, local := Renumber(c.microBatches, mb);
    TimeOfAction(c, s, me, round, local);
    RoundInside(c.microBatches, c.rounds, round, local);
    OwesBackward(c.stages, c.microBatches, s + 1, other.pc, round, local);
  }

  lemma SlowForwardReceiverIsDueEarlier(c: Config, s: nat, me: Stage, other: Stage, mb: nat)
    requires ValidConfig(c) && s + 1 < c.stages && AtAction(c, s, me, Forward, mb) && me.started
    requires mb < Total(c) && other.pc <= 2 * Total(c) && CountsOf(c, s + 1, other).fRecv < mb
    ensures DueEarlier(c, s, me, s + 1, other)
  {
    hide RunForwards, RunBackwards, RunTime;
    var round, local := Renumber(c.microBatches, mb);
    TimeOfAction(c, s, me, round, local);
    var r, l := Previous(c.stages, c.microBatches, s, round, local);
    UrgencyOwingForward(c, s + 1, other, r, l);
  }

  /** A stage that has not even received a forward has a step due no later than that receive. */
  lemma UrgencyOwingForward(c: Config, s: nat, me: Stage, round: nat, mb: nat)
    requires ValidConfig(c) && s < c.stages && mb < c.microBatches && me.pc <= 2 * Total(c)
    requires CountsOf(c, s, me).fRecv <= Numbered(c.microBatches, round, mb) < Total(c)
    ensures me.pc < 2 * Total(c) && Urgency(c, s, me) <= 2 * RunForwardTime(c.stages, c.microBatches, s, round, mb)
  {
    hide RunForwards, RunBackwards, RunTime;
    RoundInside(c.microBatches, c.rounds, round, mb);
    OwesForward(c.stages, c.microBatches, s, me.pc, round, mb);
    RunOrder(c.stages, c.microBatches, s, me.pc);
  }

  /** The micro-batch before, and when it is due at the neighbours. */
  lemma Previous(stages: nat, microBatches: nat, s: nat, round: nat, mb: nat) returns (r: nat, l: nat)
    requires Schedulable(stages, microBatches) && s < stages && mb < microBatches
    requires Numbered(microBatches, round, mb) > 0
    ensures l < microBatches && Numbered(microBatches, r, l) == Numbered(microBatches, round, mb) - 1
    ensures s + 1 < stages ==>
        RunForwardTime(stages, microBatches, s + 1, r, l) <= RunForwardTime(stages, microBatches, s, round, mb)
    ensures s > 0 ==> RunBackwardTime(stages, microBatches, s - 1, r, l) < RunBackwardTime(stages, microBatches, s,
        round, mb)
  {
    if mb > 0 {
      r, l := round, mb - 1;
    } else {
      assert round > 0;
      r, l := round - 1, microBatches - 1;
      assert (r + 1) * microBatches == r * microBatches + microBatches;
      assert (r + 1) * Period(stages, microBatches) == r * Period(stages, microBatches) + Period(stages, microBatches);
    }
  }

  lemma SlowBackwardReceiverIsDueEarlier(c: Config, s: nat, me: Stage, other: Stage, mb: nat)
    requires ValidConfig(c) && 0 < s < c.stages && AtAction(c, s, me, Backward, mb) && me.started
    requires mb < Total(c) && other.pc <= 2 * Total(c) && CountsOf(c, s - 1, other).bRecv < mb
    ensures DueEarlier(c, s, me, s - 1, other)
  {
    hide RunForwards, RunBackwards, RunTime;
    var round, local := Renumber(c.microBatches, mb);
    TimeOfAction(c, s, me, round, local);
    var r, l := Previous(c.stages, c.microBatches, s, round, local);
    RoundInside(c.microBatches, c.rounds, r, l);
    OwesBackward(c.stages, c.microBatches, s - 1, other.pc, r, l);
  }

  predicate Unfinished(c: Config, st: State, s: nat)
    requires Shaped(c, st) && s < c.stages
  {
    st.stages[s].pc < 2 * Total(c)
  }

  predicate HasRoom(c: Config) {
    c.capacity >= 1 || c.stages == 1
  }

  /** Why a stage blocks: an empty channel to receive from, or a full one to send to. */
  lemma BlockedOnNeighbour(c: Config, st: State, s: nat) returns (t: nat)
    requires Invariant(c, st) && HasRoom(c) && s < c.stages && Unfinished(c, st, s) && Step(c, st, s).Blocked?
    ensures t < c.stages && DueEarlier(c, s, st.stages[s], t, st.stages[t])
  {
    var a := NextAction(c, st, s);
    NextCounts(c, st, s);
    RunMicroBatch(c.stages, c.microBatches, c.rounds, s, st.stages[s].pc);
    t := if a.op.Forward? == st.stages[s].started then s + 1 else s - 1;
    BlockedCounts(c, st, s, AllCounts(c, st));
    if a.op.Forward? && !st.stages[s].started {
      AwaitedForwardIsDueEarlier(c, s, st.stages[s], st.stages[t], a.microBatch);
    } else if a.op.Forward? {
      SlowForwardReceiverIsDueEarlier(c, s, st.stages[s], st.stages[t], a.microBatch);
    } else if !st.stages[s].started {
      AwaitedBackwardIsDueEarlier(c, s, st.stages[s], st.stages[t], a.microBatch);
    } else {
      SlowBackwardReceiverIsDueEarlier(c, s, st.stages[s], st.stages[t], a.microBatch);
    }
  }

  /** What an empty or a full channel says about the neighbour's counts. */
  lemma BlockedCounts(c: Config, st: State, s: nat, k: seq<Counts>)
    requires Invariant(c, st) && HasRoom(c) && k == AllCounts(c, st)
    requires s < c.stages && Unfinished(c, st, s) && Step(c, st, s).Blocked?
    ensures var a, started := NextAction(c, st, s), st.stages[s].started;
            && (a.op.Forward? && !started ==> s > 0 && k[s - 1].fSent == a.microBatch)
            && (a.op.Forward? && started ==> s + 1 < c.stages && k[s + 1].fRecv < a.microBatch)
            && (a.op.Backward? && !started ==> s + 1 < c.stages && k[s + 1].bSent == a.microBatch)
            && (a.op.Backward? && started ==> s > 0 && k[s - 1].bRecv < a.microBatch)
  {
    Neighbours(c, st, s, k);
    if NextAction(c, st, s).op.Forward? {
      BlockedForwardCounts(c, st, s, k);
    } else {
      BlockedBackwardCounts(c, st, s, k);
    }
  }

  lemma BlockedForwardCounts(c: Config, st: State, s: nat, k: seq<Counts>)
    requires ValidConfig(c) && Shaped(c, st) && HasRoom(c) && s < c.stages && Unfinished(c, st, s) && |k| == c.stages
    requires k[s] == CountsOf(c, s, st.stages[s]) && StageInvariant(c.stages, s, st.stages[s], k[s])
    requires s + 1 < c.stages ==> ForwardInvariant(c.capacity, s, k[s], k[s + 1], st.forward[s])
    requires s > 0 ==> ForwardInvariant(c.capacity, s - 1, k[s - 1], k[s], st.forward[s - 1])
    requires NextAction(c, st, s).op.Forward? && Step(c, st, s).Blocked?
    ensures !st.stages[s].started ==> s > 0 && k[s - 1].fSent == NextAction(c, st, s).microBatch
    ensures st.stages[s].started ==> s + 1 < c.stages && k[s + 1].fRecv < NextAction(c, st, s).microBatch
  {
    NextCounts(c, st, s);
    assert st.stages[s].started ==> NextAction(c, st, s).microBatch in st.stages[s].outputs;
  }

  lemma BlockedBackwardCounts(c: Config, st: State, s: nat, k: seq<Counts>)
    requires ValidConfig(c) && Shaped(c, st) && HasRoom(c) && s < c.stages && Unfinished(c, st, s) && |k| == c.stages
    requires k[s] == CountsOf(c, s, st.stages[s]) && StageInvariant(c.stages, s, st.stages[s], k[s])
    requires s + 1 < c.stages ==> BackwardInvariant(c.stages, c.capacity, s, k[s + 1], k[s], st.backward[s])
    requires s > 0 ==> BackwardInvariant(c.stages, c.capacity, s - 1, k[s], k[s - 1], st.backward[s - 1])
    requires NextAction(c, st, s).op.Backward? && Step(c, st, s).Blocked?
    ensures !st.stages[s].started ==> s + 1 < c.stages && k[s + 1].bSent == NextAction(c, st, s).microBatch
    ensures st.stages[s].started ==> s > 0 && k[s - 1].bRecv < NextAction(c, st, s).microBatch
  {
    NextCounts(c, st, s);
    SlotsAreFilled(c, st, s);
  }

  lemma SlotsAreFilled(c: Config, st: State, s: nat)
    requires ValidConfig(c) && Shaped(c, st) && s < c.stages && Unfinished(c, st, s)
    requires StageInvariant(c.stages, s, st.stages[s], CountsOf(c, s, st.stages[s]))
    requires NextAction(c, st, s).op.Backward?
    ensures var me, mb := st.stages[s], NextAction(c, st, s).microBatch;
            && mb in me.outputs
            && (me.started && s > 0 ==> mb in me.inputs && me.inputs[mb].gradient.Some?)
  {
    NextCounts(c, st, s);
  }

  /** No stage ever hits a missing activation or a missing input. */
  lemma NeverThrows(c: Config, st: State, s: nat)
    requires Invariant(c, st) && s < c.stages
    ensures !Step(c, st, s).Threw?
  {
    if Unfinished(c, st, s) && NextAction(c, st, s).op.Backward? {
      assert StageInvariant(c.stages, s, st.stages[s], AllCounts(c, st)[s]);
      SlotsAreFilled(c, st, s);
    }
  }

  lemma {:induction false} MostUrgent(c: Config, st: State, n: nat, u: nat) returns (s: nat)
    requires ValidConfig(c) && Shaped(c, st) && u < n <= c.stages && Unfinished(c, st, u)
    ensures s < n && Unfinished(c, st, s)
    ensures forall t: nat | t < n && Unfinished(c, st, t) :: Urgency(c, s, st.stages[s]) <= Urgency(c, t, st.stages[t])
    decreases n
  {
    s := n - 1;
    if v: nat :| v < n - 1 && Unfinished(c, st, v) {
      var best := MostUrgent(c, st, n - 1, v);
      if !Unfinished(c, st, s) || Urgency(c, best, st.stages[best]) < Urgency(c, s, st.stages[s]) {
        s := best;
      }
    }
  }

  /** Deadlock freedom: the most urgent stage of an unfinished state can always step. */
  lemma Progress(c: Config, st: State) returns (s: nat)
    requires Invariant(c, st) && HasRoom(c) && !Finished(c, st)
    ensures s < c.stages && Step(c, st, s).Moved?
  {
    var u: nat :| u < c.stages && st.stages[u].pc != 2 * Total(c);
    s := MostUrgent(c, st, c.stages, u);
    NeverThrows(c, st, s);
    if Step(c, st, s).Blocked? {
      var t := BlockedOnNeighbour(c, st, s);
      assert Unfinished(c, st, t);
      assert false;
    }
  }

  // ----- whole runs

  /** Steps a stage has taken. */
  function StepsOf(me: Stage): nat {
    2 * me.pc + (if me.started then 1 else 0)
  }

  function TotalSteps(stages: seq<Stage>): nat {
    if stages == [] then 0 else StepsOf(stages[0]) + TotalSteps(stages[1..])
  }

  lemma {:induction false} TotalAfterUpdate(stages: seq<Stage>, s: nat, me: Stage)
    requires s < |stages| && StepsOf(me) == StepsOf(stages[s]) + 1
    ensures TotalSteps(stages[s := me]) == TotalSteps(stages) + 1
  {
    if s == 0 {
      assert stages[s := me][1..] == stages[1..];
    } else {
      TotalAfterUpdate(stages[1..], s - 1, me);
      assert stages[s := me][1..] == stages[1..][s - 1 := me];
    }
  }

  /** `picks` is an interleaving: the stage the environment lets run, step by step. */
  ghost predicate Run(c: Config, from: State, picks: seq<nat>, to: State)
    requires ValidConfig(c)
    decreases |picks|
  {
    if picks == [] then from == to
    else
      && Shaped(c, from) && picks[0] < c.stages && Step(c, from, picks[0]).Moved?
      && Run(c, Step(c, from, picks[0]).next, picks[1..], to)
  }

  lemma {:induction false} RunKeepsInvariant(c: Config, from: State, picks: seq<nat>, to: State)
    requires Invariant(c, from) && Run(c, from, picks, to)
    ensures Invariant(c, to) && TotalSteps(to.stages) == TotalSteps(from.stages) + |picks|
    decreases |picks|
  {
    if picks != [] {
      var next := Step(c, from, picks[0]).next;
      StepKeepsInvariant(c, from, picks[0]);
      StepMovesOneStage(c, from, picks[0]);
      TotalAfterUpdate(from.stages, picks[0], next.stages[picks[0]]);
      RunKeepsInvariant(c, next, picks[1..], to);
    }
  }

  lemma {:induction false} TotalBound(stages: seq<Stage>, microBatches: nat)
    requires forall me | me in stages :: me.pc <= 2 * microBatches && (me.started ==> me.pc < 2 * microBatches)
    ensures TotalSteps(stages) <= |stages| * (4 * microBatches)
    ensures TotalSteps(stages) == |stages| * (4 * microBatches)
        <==> forall me | me in stages :: me.pc == 2 * microBatches
  {
    if stages != [] {
      TotalBound(stages[1..], microBatches);
      OneMore(|stages| - 1, 4 * microBatches);
      AllOf(stages, 2 * microBatches);
    }
  }

  lemma OneMore(n: nat, each: nat)
    ensures (n + 1) * each == n * each + each
  {
  }

  lemma AllOf(stages: seq<Stage>, pc: nat)
    requires stages != []
    ensures (forall me | me in stages :: me.pc == pc)
        <==> stages[0].pc == pc && (forall me | me in stages[1..] :: me.pc == pc)
  {
    assert stages == [stages[0]] + stages[1..];
  }

  lemma {:induction false} InitialTotal(stages: seq<Stage>)
    requires forall me | me in stages :: StepsOf(me) == 0
    ensures TotalSteps(stages) == 0
  {
    if stages != [] { InitialTotal(stages[1..]); }
  }

  /** What a finished pipeline holds: each stage has accumulated, in micro-batch order, exactly what
      the unpipelined loop accumulates; all slots and channels are empty. */
  ghost predicate Drained(c: Config, st: State)
    requires ValidConfig(c) && Shaped(c, st)
  {
    && (forall s | 0 <= s < c.stages ::
          && st.stages[s].contributions == ReferenceContributions(c.stages, s, Total(c))
          && st.stages[s].inputs == map[] && st.stages[s].outputs == map[])
    && (forall s | 0 <= s < c.stages - 1 :: st.forward[s] == [] && st.backward[s] == [])
  }

  lemma FinishedIsDrained(c: Config, st: State)
    requires Invariant(c, st) && Finished(c, st)
    ensures Drained(c, st)
  {
    var k := AllCounts(c, st);
    forall s | 0 <= s < c.stages
      ensures k[s] == Counts(Total(c), Total(c), Total(c), Total(c))
    {
      RunEnds(c.stages, c.microBatches, c.rounds, s, 2 * Total(c));
    }
    forall s | 0 <= s < c.stages
      ensures && st.stages[s].contributions == ReferenceContributions(c.stages, s, Total(c))
              && st.stages[s].inputs == map[] && st.stages[s].outputs == map[]
              && (s < c.stages - 1 ==> st.forward[s] == [] && st.backward[s] == [])
    {
      Neighbours(c, st, s, k);
    }
  }

  /** Every interleaving of the 1F1B programs, with room for at least one message per direction:
      no step throws, an unfinished run can be continued, a run has at most 4 * stages * microBatches
      steps and is finished exactly when it has that many, and then every stage holds the gradients of
      the unpipelined loop, whatever the interleaving was. */
  lemma EveryInterleavingFinishes(c: Config, picks: seq<nat>, st: State)
    requires ValidConfig(c) && HasRoom(c) && Run(c, Initial(c), picks, st)
    ensures Shaped(c, st)
    ensures forall s | 0 <= s < c.stages :: !Step(c, st, s).Threw?
    ensures !Finished(c, st) ==> exists s :: 0 <= s < c.stages && Step(c, st, s).Moved?
    ensures |picks| <= c.stages * (4 * Total(c))
    ensures Finished(c, st) <==> |picks| == c.stages * (4 * Total(c))
    ensures Finished(c, st) ==> Drained(c, st)
  {
    InitialInvariant(c);
    RunKeepsInvariant(c, Initial(c), picks, st);
    InitialTotal(Initial(c).stages);
    TotalBound(st.stages, Total(c));
    forall s | 0 <= s < c.stages ensures !Step(c, st, s).Threw? {
      NeverThrows(c, st, s);
    }
    if Finished(c, st) {
      FinishedIsDrained(c, st);
    } else {
      var s := Progress(c, st);
    }
  }

  lemma HeadsMatch(c: Config, st: State, s: nat, k: seq<Counts>)
    requires ValidConfig(c) && Shaped(c, st) && k == AllCounts(c, st) && Consistent(c, st, k)
    requires s < c.stages && Unfinished(c, st, s) && !st.stages[s].started
    ensures var a := NextAction(c, st, s);
            && (a.recvForward && st.forward[s - 1] != [] ==> st.forward[s - 1][0] == StageOutput(s - 1, a.microBatch))
            && (a.recvBackward && st.backward[s] != [] ==>
              st.backward[s][0] == InputGradientOf(c.stages, s + 1, a.microBatch))
  {
    if s > 0 { ForwardHead(c, st, s, k); }
    if s + 1 < c.stages { BackwardHead(c, st, s, k); }
  }

  lemma ForwardHead(c: Config, st: State, s: nat, k: seq<Counts>)
    requires ValidConfig(c) && Shaped(c, st) && k == AllCounts(c, st) && Consistent(c, st, k)
    requires 0 < s < c.stages && Unfinished(c, st, s) && !st.stages[s].started
    ensures NextAction(c, st, s).op.Forward? && st.forward[s - 1] != [] ==>
              st.forward[s - 1][0] == StageOutput(s - 1, NextAction(c, st, s).microBatch)
  {
    assert ForwardInvariant(c.capacity, s - 1, k[s - 1], k[s], st.forward[s - 1]);
    NextCounts(c, st, s);
  }

  lemma BackwardHead(c: Config, st: State, s: nat, k: seq<Counts>)
    requires ValidConfig(c) && Shaped(c, st) && k == AllCounts(c, st) && Consistent(c, st, k)
    requires s + 1 < c.stages && Unfinished(c, st, s) && !st.stages[s].started
    ensures NextAction(c, st, s).op.Backward? && st.backward[s] != [] ==>
              st.backward[s][0] == InputGradientOf(c.stages, s + 1, NextAction(c, st, s).microBatch)
  {
    assert BackwardInvariant(c.stages, c.capacity, s, k[s + 1], k[s], st.backward[s]);
    NextCounts(c, st, s);
  }

  /** Messages carry no tag, yet the one at the head of a channel belongs to the micro-batch the
      receiver's next action names. */
  lemma UntaggedReceivesMatch(c: Config, picks: seq<nat>, st: State, s: nat)
    requires ValidConfig(c) && Run(c, Initial(c), picks, st)
    requires Shaped(c, st) && s < c.stages && Unfinished(c, st, s) && !st.stages[s].started
    ensures var a := NextAction(c, st, s);
            && (a.recvForward && st.forward[s - 1] != [] ==> st.forward[s - 1][0] == StageOutput(s - 1, a.microBatch))
            && (a.recvBackward && st.backward[s] != [] ==>
              st.backward[s][0] == InputGradientOf(c.stages, s + 1, a.microBatch))
  {
    InitialInvariant(c);
    RunKeepsInvariant(c, Initial(c), picks, st);
    HeadsMatch(c, st, s, AllCounts(c, st));
  }

  lemma CountsSpan(c: Config, s: nat, me: Stage)
    requires ValidConfig(c) && s < c.stages && me.pc <= 2 * Total(c)
    ensures var k := CountsOf(c, s, me); k.bSent <= k.fRecv <= k.bSent + c.stages - s
  {
    if me.pc < 2 * Total(c) { RunOrder(c.stages, c.microBatches, s, me.pc); }
  }

  /** A stage never holds more than `stages - s` activations. */
  lemma LiveActivationsBounded(c: Config, picks: seq<nat>, st: State, s: nat)
    requires ValidConfig(c) && Run(c, Initial(c), picks, st) && Shaped(c, st) && s < c.stages
    ensures |st.stages[s].outputs| <= c.stages - s
  {
    InitialInvariant(c);
    RunKeepsInvariant(c, Initial(c), picks, st);
    var k := CountsOf(c, s, st.stages[s]);
    assert StageInvariant(c.stages, s, st.stages[s], AllCounts(c, st)[s]);
    CountsSpan(c, s, st.stages[s]);
    SlotCount(s, k);
  }

  /** The micro-batches a stage holds are of one round, so slots numbered within the round do not collide. */
  lemma SlotsOfOneRound(c: Config, picks: seq<nat>, st: State, s: nat, a: nat, b: nat)
    requires ValidConfig(c) && Run(c, Initial(c), picks, st) && Shaped(c, st) && s < c.stages
    requires a in st.stages[s].outputs && b in st.stages[s].outputs && a % c.microBatches == b % c.microBatches
    ensures a == b
  {
    InitialInvariant(c);
    RunKeepsInvariant(c, Initial(c), picks, st);
    assert StageInvariant(c.stages, s, st.stages[s], AllCounts(c, st)[s]);
    var round := RoundOf(c.microBatches, st.stages[s].pc);
    CountsInRound(c, s, st.stages[s], round);
    InRound(c.microBatches, round, a);
    InRound(c.microBatches, round, b);
  }

  lemma InRound(microBatches: nat, round: nat, a: nat)
    requires Numbered(microBatches, round, 0) <= a < Numbered(microBatches, round, microBatches)
    ensures microBatches > 0 && a % microBatches == a - Numbered(microBatches, round, 0)
  {
    var r, l := Renumber(microBatches, a);
    SameChunk(round, a - round * microBatches, r, l, microBatches);
    SameChunk(a / microBatches, a % microBatches, r, l, microBatches);
  }

  lemma CountsInRound(c: Config, s: nat, me: Stage, round: nat)
    requires ValidConfig(c) && s < c.stages && me.pc <= 2 * Total(c) && round == RoundOf(c.microBatches, me.pc)
    ensures Numbered(c.microBatches, round, 0) <= CountsOf(c, s, me).bSent
    ensures CountsOf(c, s, me).fRecv <= Numbered(c.microBatches, round, c.microBatches)
  {
    ProgramOrder(c.stages, c.microBatches, s, PlaceIn(c.microBatches, me.pc));
  }

  lemma {:induction false} SlotCount(s: nat, k: Counts)
    requires k.bSent <= k.fRecv
    ensures |OutputSlots(s, k)| == k.fRecv - k.bSent
    decreases k.fRecv
  {
    if k.bSent == k.fRecv {
      assert OutputSlots(s, k) == map[];
    } else {
      var k' := k.(fRecv := k.fRecv - 1);
      SlotCount(s, k');
      assert OutputSlots(s, k).Keys == OutputSlots(s, k').Keys + {k'.fRecv};
      assert OutputSlots(s, k) == OutputSlots(s, k')[k'.fRecv := StageOutput(s, k'.fRecv)];
    }
  }

  // ----- rendezvous sends

  /** With no buffering a send completes only together with the matching receive. */
  datatype Move = Alone(s: nat) | HandOver(from: nat, to: nat)

  /** A handover is a send through a one-place channel that is emptied at once. */
  function RendezvousStep(c: Config, st: State, m: Move): Outcome
    requires ValidConfig(c) && Shaped(c, st)
  {
    match m
    case Alone(s) =>
      if s >= c.stages || !Unfinished(c, st, s) then Blocked
      else
        var a, started := NextAction(c, st, s), st.stages[s].started;
        if (if started then a.sendForward || a.sendBackward else a.recvForward || a.recvBackward) then Blocked
        else Step(c, st, s)
    case HandOver(s, t) =>
      if s >= c.stages || t >= c.stages || !Unfinished(c, st, s) || !Unfinished(c, st, t) then Blocked
      else
        var a, b := NextAction(c, st, s), NextAction(c, st, t);
        if !st.stages[s].started || st.stages[t].started then Blocked
        else if (a.sendForward && b.recvForward && t == s + 1) || (a.sendBackward && b.recvBackward && s == t + 1) then
          var sent := Step(c.(capacity := 1), st, s);
          if sent.Moved? && Shaped(c, sent.next) then Step(c, sent.next, t) else Blocked
        else Blocked
  }

  ghost predicate RendezvousRun(c: Config, from: State, moves: seq<Move>, to: State)
    requires ValidConfig(c)
    decreases |moves|
  {
    if moves == [] then from == to
    else
      && Shaped(c, from) && RendezvousStep(c, from, moves[0]).Moved?
      && RendezvousRun(c, RendezvousStep(c, from, moves[0]).next, moves[1..], to)
  }

  /** The last two stages block each other: the one before the last in its second forward send, the
      last in its first gradient send. */
  predicate HeldUp(c: Config, st: State) {
    && c.stages >= 2 && Shaped(c, st)
    && var u, v := st.stages[c.stages - 2], st.stages[c.stages - 1];
       || (u.pc == 0 && v.pc == 0 && !v.started)
       || (u.pc == 1 && (v.pc == 1 || (v.pc == 0 && v.started)))
  }

  /** The first two actions of the last two stages. */
  lemma LastTwoPrograms(stages: nat, microBatches: nat, k: nat)
    requires Schedulable(stages, microBatches) && stages >= 2 && k < 2
    ensures var a, b := RunAction(stages, microBatches, stages - 2, k), RunAction(stages, microBatches, stages - 1, k);
            && a.sendForward && !a.recvBackward && !b.sendForward
            && (k == 0 ==> b.recvForward && !b.sendBackward) && (k == 1 ==> b.sendBackward && !b.recvForward)
  {
    SplitPosition(microBatches, k, 0, k);
  }

  lemma AloneStaysHeldUp(c: Config, st: State, s: nat)
    requires ValidConfig(c) && HeldUp(c, st) && RendezvousStep(c, st, Alone(s)).Moved?
    ensures HeldUp(c, RendezvousStep(c, st, Alone(s)).next)
  {
    StepMovesOneStage(c, st, s);
    LastTwoPrograms(c.stages, c.microBatches, 0);
    LastTwoPrograms(c.stages, c.microBatches, 1);
  }

  /** A handover moves the sender to its next action and the receiver into its current one. */
  lemma HandOverMovesTwo(c: Config, st: State, s: nat, t: nat)
    requires ValidConfig(c) && Shaped(c, st) && RendezvousStep(c, st, HandOver(s, t)).Moved?
    ensures s < c.stages && t < c.stages && s != t && Unfinished(c, st, s) && Unfinished(c, st, t)
    ensures var a, b := NextAction(c, st, s), NextAction(c, st, t);
            (a.sendForward && b.recvForward && t == s + 1) || (a.sendBackward && b.recvBackward && s == t + 1)
    ensures var st' := RendezvousStep(c, st, HandOver(s, t)).next;
            && st.stages[s].started && !st.stages[t].started && Shaped(c, st')
            && st'.stages == st.stages[s := st'.stages[s]][t := st'.stages[t]]
            && st'.stages[s].pc == st.stages[s].pc + 1 && !st'.stages[s].started
            && st'.stages[t].pc == st.stages[t].pc && st'.stages[t].started
  {
    var sent := Step(c.(capacity := 1), st, s).next;
    StepMovesOneStage(c.(capacity := 1), st, s);
    StepMovesOneStage(c, sent, t);
  }

  lemma HandOverStaysHeldUp(c: Config, st: State, s: nat, t: nat)
    requires ValidConfig(c) && HeldUp(c, st) && RendezvousStep(c, st, HandOver(s, t)).Moved?
    ensures HeldUp(c, RendezvousStep(c, st, HandOver(s, t)).next)
  {
    hide RendezvousStep;
    HandOverMovesTwo(c, st, s, t);
    LastTwoPrograms(c.stages, c.microBatches, 0);
    LastTwoPrograms(c.stages, c.microBatches, 1);
  }

  /** The capacity hypothesis is needed: with two or more stages and rendezvous sends no run ever finishes. */
  lemma {:induction false} RendezvousNeverFinishes(c: Config, from: State, moves: seq<Move>, to: State)
    requires ValidConfig(c) && HeldUp(c, from) && RendezvousRun(c, from, moves, to)
    ensures Shaped(c, to) && !Finished(c, to)
    decreases |moves|
  {
    if moves != [] {
      match moves[0] {
        case Alone(s) => AloneStaysHeldUp(c, from, s);
        case HandOver(s, t) => HandOverStaysHeldUp(c, from, s, t);
      }
      RendezvousNeverFinishes(c, RendezvousStep(c, from, moves[0]).next, moves[1..], to);
    }
  }

  lemma RendezvousDeadlocks(c: Config, moves: seq<Move>, st: State)
    requires ValidConfig(c) && c.stages >= 2 && RendezvousRun(c, Initial(c), moves, st)
    ensures Shaped(c, st) && !Finished(c, st)
  {
    RendezvousNeverFinishes(c, Initial(c), moves, st);
  }
}

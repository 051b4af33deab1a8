/** Gradient accumulation: a stage runs its 1F1B program round after round, without a barrier in between.
    Positions and micro-batches are counted through the whole accumulation. */
module PipelineRounds {
  import opened Chunks
  import opened PipelineSchedule

  function Quotient(k: nat, size: nat): nat
    requires size > 0
  {
    k / size
  }

  function RoundOf(microBatches: nat, k: nat): nat
    requires microBatches > 0
  {
    Quotient(k, 2 * microBatches)
  }

  function PlaceIn(microBatches: nat, k: nat): (p: nat)
    requires microBatches > 0
    ensures p < 2 * microBatches
  {
    k % (2 * microBatches)
  }

  lemma SplitPosition(microBatches: nat, k: nat, round: nat, place: nat)
    requires microBatches > 0 && place < 2 * microBatches
    ensures RoundOf(microBatches, k) == round && PlaceIn(microBatches, k) == place
        <==> k == round * (2 * microBatches) + place
  {
    var r, p := RoundOf(microBatches, k), PlaceIn(microBatches, k);
    assert k == r * (2 * microBatches) + p;
    if k == round * (2 * microBatches) + place { SameChunk(r, p, round, place, 2 * microBatches); }
  }

  lemma NextPlace(microBatches: nat, k: nat, round: nat, place: nat)
    requires microBatches > 0 && round == RoundOf(microBatches, k) && place == PlaceIn(microBatches, k)
    ensures place + 1 < 2 * microBatches ==> RoundOf(microBatches, k + 1) == round
    ensures place + 1 < 2 * microBatches ==> PlaceIn(microBatches, k + 1) == place + 1
    ensures place + 1 == 2 * microBatches ==> RoundOf(microBatches, k + 1) == round + 1
    ensures place + 1 == 2 * microBatches ==> PlaceIn(microBatches, k + 1) == 0
  {
    SplitPosition(microBatches, k, round, place);
    if place + 1 < 2 * microBatches {
      SplitPosition(microBatches, k + 1, round, place + 1);
    } else {
      assert (round + 1) * (2 * microBatches) == round * (2 * microBatches) + 2 * microBatches;
      SplitPosition(microBatches, k + 1, round + 1, 0);
    }
  }

  lemma EndPlace(microBatches: nat, rounds: nat, k: nat)
    requires microBatches > 0 && k <= 2 * (microBatches * rounds)
    ensures k == 2 * (microBatches * rounds) ==> RoundOf(microBatches, k) == rounds && PlaceIn(microBatches, k) == 0
    ensures k < 2 * (microBatches * rounds) ==> RoundOf(microBatches, k) < rounds
  {
    var r, p := RoundOf(microBatches, k), PlaceIn(microBatches, k);
    SplitPosition(microBatches, k, r, p);
    assert 2 * (microBatches * rounds) == rounds * (2 * microBatches);
    if k == 2 * (microBatches * rounds) {
      SplitPosition(microBatches, k, rounds, 0);
    } else {
      MulAtLeast(r, rounds, 2 * microBatches);
    }
  }

  /** The action at position `k` of the accumulation; its micro-batch is numbered through all rounds. */
  function RunAction(stages: nat, microBatches: nat, s: nat, k: nat): (a: Action)
    requires 1 <= stages && 1 <= microBatches && s < stages
  {
    var a := Program(stages, microBatches, s)[PlaceIn(microBatches, k)];
    a.(microBatch := RoundOf(microBatches, k) * microBatches + a.microBatch)
  }

  function RunForwards(stages: nat, microBatches: nat, s: nat, k: nat): nat
    requires 1 <= microBatches && s < stages
  {
    RoundOf(microBatches, k) * microBatches + Forwards(stages, microBatches, s, PlaceIn(microBatches, k))
  }

  function RunBackwards(stages: nat, microBatches: nat, s: nat, k: nat): nat
    requires 1 <= microBatches && s < stages
  {
    RoundOf(microBatches, k) * microBatches + Backwards(stages, microBatches, s, PlaceIn(microBatches, k))
  }

  /** In the whole accumulation, too, every micro-batch runs forward once and backward once, in order, and a
      backward comes after its own forward. */
  lemma RunOrder(stages: nat, microBatches: nat, s: nat, k: nat)
    requires 1 <= stages && 1 <= microBatches && s < stages
    ensures var a := RunAction(stages, microBatches, s, k);
            var f, b := RunForwards(stages, microBatches, s, k), RunBackwards(stages, microBatches, s, k);
            && (a.op.Forward? ==>
                && a.microBatch == f
                && RunForwards(stages, microBatches, s, k + 1) == f + 1
                && RunBackwards(stages, microBatches, s, k + 1) == b)
            && (a.op.Backward? ==>
                && a.microBatch == b < f
                && RunForwards(stages, microBatches, s, k + 1) == f
                && RunBackwards(stages, microBatches, s, k + 1) == b + 1)
  {
    hide Program, Forwards, Backwards, RoundOf, PlaceIn;
    var round, place := RoundOf(microBatches, k), PlaceIn(microBatches, k);
    ProgramOrder(stages, microBatches, s, place);
    NextPlace(microBatches, k, round, place);
    if place + 1 == 2 * microBatches {
      EndOfRound(stages, microBatches, s);
      assert (round + 1) * microBatches == round * microBatches + microBatches;
    }
  }

  lemma EndOfRound(stages: nat, microBatches: nat, s: nat)
    requires 1 <= microBatches && s < stages
    ensures Forwards(stages, microBatches, s, 2 * microBatches) == microBatches
    ensures Backwards(stages, microBatches, s, 2 * microBatches) == microBatches
    ensures Forwards(stages, microBatches, s, 0) == 0 && Backwards(stages, microBatches, s, 0) == 0
  {
  }

  /** The micro-batch of a position before the end is one of the accumulation's. */
  lemma RunMicroBatch(stages: nat, microBatches: nat, rounds: nat, s: nat, k: nat)
    requires 1 <= stages && 1 <= microBatches && s < stages && k < 2 * (microBatches * rounds)
    ensures RunAction(stages, microBatches, s, k).microBatch < microBatches * rounds
  {
    var round := RoundOf(microBatches, k);
    ProgramOrder(stages, microBatches, s, PlaceIn(microBatches, k));
    EndPlace(microBatches, rounds, k);
    MulAtLeast(rounds, round + 1, microBatches);
    assert (round + 1) * microBatches == round * microBatches + microBatches;
  }

  lemma RunEnds(stages: nat, microBatches: nat, rounds: nat, s: nat, k: nat)
    requires 1 <= microBatches && s < stages && k == 2 * (microBatches * rounds)
    ensures RunForwards(stages, microBatches, s, k) == RunBackwards(stages, microBatches, s, k) == microBatches * rounds
    ensures RunForwards(stages, microBatches, s, 0) == RunBackwards(stages, microBatches, s, 0) == 0
  {
    EndPlace(microBatches, rounds, k);
    EndOfRound(stages, microBatches, s);
    SplitPosition(microBatches, 0, 0, 0);
  }
}

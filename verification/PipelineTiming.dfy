/** How long a 1F1B run takes in unit steps. */
module PipelineTiming {
  import opened PipelineSchedule
  import opened PipelineProgress
  import opened Sequences

  /** The position of the neighbour's action whose message the action at `k` of stage `s` receives. */
  function Awaits(stages: nat, microBatches: nat, s: nat, k: nat): (d: (nat, nat))
    requires Schedulable(stages, microBatches) && s < stages && k < 2 * microBatches
    requires var a := Program(stages, microBatches, s)[k]; a.recvForward || a.recvBackward
    ensures d.0 < stages && d.1 < 2 * microBatches
  {
    ProgramOrder(stages, microBatches, s, k);
    var a := Program(stages, microBatches, s)[k];
    if a.recvForward then (s - 1, ForwardPosition(stages, microBatches, s - 1, a.microBatch))
    else (s + 1, BackwardPosition(stages, microBatches, s + 1, a.microBatch))
  }

  lemma AwaitedIsEarlier(stages: nat, microBatches: nat, s: nat, k: nat, d: (nat, nat))
    requires Schedulable(stages, microBatches) && s < stages && k < 2 * microBatches
    requires var a := Program(stages, microBatches, s)[k]; a.recvForward || a.recvBackward
    requires d == Awaits(stages, microBatches, s, k)
    ensures TimeAt(stages, microBatches, d.0, d.1) < TimeAt(stages, microBatches, s, k)
  {
    ProgramOrder(stages, microBatches, s, k);
  }

  /** The eager run: an action starts as soon as the stage is free and its message has arrived. */
  function EagerStart(stages: nat, microBatches: nat, s: nat, k: nat): nat
    requires Schedulable(stages, microBatches) && s < stages && k < 2 * microBatches
    decreases TimeAt(stages, microBatches, s, k)
  {
    var a := Program(stages, microBatches, s)[k];
    var free := if k == 0 then 0 else (TimeIncreases(stages, microBatches, s, k - 1, k); EagerStart(stages,
      microBatches, s, k - 1) + 1);
    if a.recvForward || a.recvBackward then
      var d := Awaits(stages, microBatches, s, k);
      AwaitedIsEarlier(stages, microBatches, s, k, d);
      Max(free, EagerStart(stages, microBatches, d.0, d.1) + 1)
    else free
  }

  /** An action starts after its predecessor on the stage and after the action whose message it receives. */
  predicate Respects(stages: nat, microBatches: nat, start: (nat, nat) -> int, s: nat, k: nat)
    requires Schedulable(stages, microBatches) && s < stages && k < 2 * microBatches
  {
    && start(s, k) >= 0
    && (k > 0 ==> start(s, k) >= start(s, k - 1) + 1)
    && (var a := Program(stages, microBatches, s)[k];
        a.recvForward || a.recvBackward ==>
          var d := Awaits(stages, microBatches, s, k); start(s, k) >= start(d.0, d.1) + 1)
  }

  /** Any timetable that respects the program order and the messages. */
  ghost predicate Feasible(stages: nat, microBatches: nat, start: (nat, nat) -> int)
    requires Schedulable(stages, microBatches)
  {
    forall s: nat, k: nat | s < stages && k < 2 * microBatches :: Respects(stages, microBatches, start, s, k)
  }

  /** Every stage begins with forward 0 and ends with the last backward. */
  lemma EndsOfProgram(stages: nat, microBatches: nat, s: nat)
    requires Schedulable(stages, microBatches) && s < stages
    ensures var a := Program(stages, microBatches, s)[0];
            a.recvForward == (s > 0) && (s > 0 ==> Awaits(stages, microBatches, s, 0) == (s - 1, 0))
    ensures var last := 2 * microBatches - 1;
            && Program(stages, microBatches, s)[last].recvBackward == (s + 1 < stages)
            && (s + 1 < stages ==> Awaits(stages, microBatches, s, last) == (s + 1, last))
  {
  }

  lemma {:induction false} FirstForwardStart(stages: nat, microBatches: nat, start: (nat, nat) -> int, s: nat)
    requires Schedulable(stages, microBatches) && Feasible(stages, microBatches, start) && s < stages
    ensures start(s, 0) >= s
  {
    assert Respects(stages, microBatches, start, s, 0);
    EndsOfProgram(stages, microBatches, s);
    if s > 0 {
      FirstForwardStart(stages, microBatches, start, s - 1);
    }
  }

  lemma {:induction false} LaterActionStart(stages: nat, microBatches: nat, start: (nat, nat) -> int, s: nat, k: nat)
    requires Schedulable(stages, microBatches) && Feasible(stages, microBatches, start) && s < stages
    requires k < 2 * microBatches
    ensures start(s, k) >= start(s, 0) + k
  {
    if k > 0 {
      LaterActionStart(stages, microBatches, start, s, k - 1);
      assert Respects(stages, microBatches, start, s, k);
    }
  }

  lemma {:induction false} LastBackwardStart(stages: nat, microBatches: nat, start: (nat, nat) -> int, s: nat)
    requires Schedulable(stages, microBatches) && Feasible(stages, microBatches, start) && s < stages
    ensures start(s, 2 * microBatches - 1) >= 2 * microBatches + 2 * stages - 3 - s
    decreases stages - s
  {
    var last := 2 * microBatches - 1;
    if s + 1 == stages {
      FirstForwardStart(stages, microBatches, start, s);
      LaterActionStart(stages, microBatches, start, s, last);
    } else {
      LastBackwardStart(stages, microBatches, start, s + 1);
      assert Respects(stages, microBatches, start, s, last);
      EndsOfProgram(stages, microBatches, s);
    }
  }

  lemma {:induction false} EagerIsEarly(stages: nat, microBatches: nat, s: nat, k: nat)
    requires Schedulable(stages, microBatches) && s < stages && k < 2 * microBatches
    ensures EagerStart(stages, microBatches, s, k) <= TimeAt(stages, microBatches, s, k)
    decreases TimeAt(stages, microBatches, s, k)
  {
    if k > 0 {
      TimeIncreases(stages, microBatches, s, k - 1, k);
      EagerIsEarly(stages, microBatches, s, k - 1);
    }
    var a := Program(stages, microBatches, s)[k];
    if a.recvForward || a.recvBackward {
      var d := Awaits(stages, microBatches, s, k);
      AwaitedIsEarlier(stages, microBatches, s, k, d);
      EagerIsEarly(stages, microBatches, d.0, d.1);
    }
  }

  lemma TimeIsBounded(stages: nat, microBatches: nat, s: nat, k: nat)
    requires Schedulable(stages, microBatches) && s < stages && k < 2 * microBatches
    ensures TimeAt(stages, microBatches, s, k) + 1 <= 2 * (microBatches + stages - 1)
  {
    TimeIncreases(stages, microBatches, s, k, 2 * microBatches - 1);
    assert BackwardPosition(stages, microBatches, s, microBatches - 1) == 2 * microBatches - 1;
  }

  function EagerTimetable(stages: nat, microBatches: nat): (nat, nat) -> int
    requires Schedulable(stages, microBatches)
  {
    (s: nat, k: nat) => if s < stages && k < 2 * microBatches then EagerStart(stages, microBatches, s, k) else 0
  }

  lemma EagerIsFeasible(stages: nat, microBatches: nat)
    requires Schedulable(stages, microBatches)
    ensures Feasible(stages, microBatches, EagerTimetable(stages, microBatches))
  {
  }

  /** The eager run ends at exactly 2 * (microBatches + stages - 1), when the first stage ends its last
      backward, and no timetable whatever ends that stage earlier. */
  lemma MakespanIsExact(stages: nat, microBatches: nat)
    requires Schedulable(stages, microBatches)
    ensures forall s: nat, k: nat | s < stages && k < 2 * microBatches ::
              EagerStart(stages, microBatches, s, k) + 1 <= 2 * (microBatches + stages - 1)
    ensures EagerStart(stages, microBatches, 0, 2 * microBatches - 1) + 1 == 2 * (microBatches + stages - 1)
    ensures forall start: (nat, nat) -> int | Feasible(stages, microBatches, start) ::
              start(0, 2 * microBatches - 1) + 1 >= 2 * (microBatches + stages - 1)
  {
    forall s: nat, k: nat | s < stages && k < 2 * microBatches
      ensures EagerStart(stages, microBatches, s, k) + 1 <= 2 * (microBatches + stages - 1)
    {
      EagerIsEarly(stages, microBatches, s, k);
      TimeIsBounded(stages, microBatches, s, k);
    }
    var eager := EagerTimetable(stages, microBatches);
    EagerIsFeasible(stages, microBatches);
    forall start: (nat, nat) -> int | Feasible(stages, microBatches, start)
      ensures start(0, 2 * microBatches - 1) + 1 >= 2 * (microBatches + stages - 1)
    {
      LastBackwardStart(stages, microBatches, start, 0);
    }
    LastBackwardStart(stages, microBatches, eager, 0);
  }
}

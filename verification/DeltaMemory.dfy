/** What the scan's state remembers: the delta rule. */
module DeltaMemory {
  import opened LinearScan
  import opened StreamingAttention
  import opened Sums
  import opened Vectors

  lemma ReadDecayed(state: State, factor: real, x: Vec, vd: nat, c: nat)
    requires Widths(state, vd) && |x| == |state| && c < vd
    ensures Contract(Decay(state, factor, vd), x, vd)[c] == factor * Contract(state, x, vd)[c]
  {
    var f, g := Weighted(state, x, vd, c), Weighted(Decay(state, factor, vd), x, vd, c);
    forall r: nat | r < |state| ensures g(r) == factor * f(r) {
      assert g(r) == (state[r][c] * factor) * x[r];
    }
    SumScale(|state|, factor, f, g);
  }

  lemma RowWritten(state: State, key: Vec, delta: Vec, x: Vec, vd: nat, c: nat, r: nat)
    requires Widths(state, vd) && |key| == |x| == |state| && |delta| == vd && c < vd && r < |state|
    ensures Weighted(AddOuter(state, key, delta, vd), x, vd, c)(r)
         == Weighted(state, x, vd, c)(r) + Products(key, x)(r) * delta[c]
  {
    assert AddOuter(state, key, delta, vd)[r][c] == state[r][c] + delta[c] * key[r];
    Distribute(state[r][c], delta[c], key[r], x[r]);
  }

  lemma Distribute(a: real, d: real, k: real, x: real)
    ensures (a + d * k) * x == a * x + (k * x) * d
  {
  }

  /** Writing `delta` at `key` changes what is read at `x` by the product of the two times `delta`. */
  lemma ReadWritten(state: State, key: Vec, delta: Vec, x: Vec, vd: nat, c: nat)
    requires Widths(state, vd) && |key| == |x| == |state| && |delta| == vd && c < vd
    ensures Contract(AddOuter(state, key, delta, vd), x, vd)[c] == Contract(state, x, vd)[c] + Dot(key, x) * delta[c]
  {
    hide Contract, Dot, SumTo, AddOuter, Weighted;
    var sum := AddOuter(state, key, delta, vd);
    var before, after := Weighted(state, x, vd, c), Weighted(sum, x, vd, c);
    var products, written := Products(key, x), (r: nat) => Products(key, x)(r) * delta[c];
    forall r: nat | r < |state| ensures after(r) == before(r) + written(r) {
      RowWritten(state, key, delta, x, vd, c, r);
    }
    SumAdd(|state|, before, written, after);
    SumScale(|state|, delta[c], products, written);
    ReadIs(state, x, vd, c);
    ReadIs(sum, x, vd, c);
    DotIs(key, x);
  }

  lemma ReadIs(state: State, x: Vec, vd: nat, c: nat)
    requires Widths(state, vd) && |x| == |state| && c < vd
    ensures Contract(state, x, vd)[c] == SumTo(|state|, Weighted(state, x, vd, c))
  {
  }

  lemma DotIs(a: Vec, b: Vec)
    requires |a| == |b|
    ensures Dot(a, b) == SumTo(|a|, Products(a, b))
  {
  }

  /** The delta rule: a read sees the decayed state moved towards the step's value, by `beta` times the
      product of read and key, from what the decayed state held at the key. */
  lemma ReadAfterStep(exp: real -> real, state: State, s: Step, x: Vec, kd: nat, vd: nat, c: nat)
    requires StateOk(state, kd, vd) && StepOk(s, kd, vd) && |x| == kd && c < vd
    ensures Contract(Advance(exp, state, s, kd, vd), x, vd)[c]
         == exp(s.g) * Contract(state, x, vd)[c]
          + s.beta * Dot(s.key, x) * (s.value[c] - exp(s.g) * Contract(state, s.key, vd)[c])
  {
    var decayed := Decay(state, exp(s.g), vd);
    ReadDecayed(state, exp(s.g), x, vd, c);
    ReadDecayed(state, exp(s.g), s.key, vd, c);
    ReadWritten(decayed, s.key, Delta(s.value, Contract(decayed, s.key, vd), s.beta), x, vd, c);
  }

  /** At the step's own key, old and new value are mixed by `beta` times the key's squared length; with
      `beta` 1 and a unit key the value is read back. A read orthogonal to the key sees only the decay. */
  lemma DeltaRule(exp: real -> real, state: State, s: Step, x: Vec, kd: nat, vd: nat, c: nat)
    requires StateOk(state, kd, vd) && StepOk(s, kd, vd) && |x| == kd && c < vd
    ensures var weight := s.beta * Dot(s.key, s.key);
            Contract(Advance(exp, state, s, kd, vd), s.key, vd)[c]
              == (1.0 - weight) * (exp(s.g) * Contract(state, s.key, vd)[c]) + weight * s.value[c]
    ensures s.beta == 1.0 && Dot(s.key, s.key) == 1.0 ==>
        Contract(Advance(exp, state, s, kd, vd), s.key, vd)[c] == s.value[c]
    ensures Dot(s.key, x) == 0.0 ==>
        Contract(Advance(exp, state, s, kd, vd), x, vd)[c] == exp(s.g) * Contract(state, x, vd)[c]
  {
    ReadAfterStep(exp, state, s, s.key, kd, vd, c);
    ReadAfterStep(exp, state, s, x, kd, vd, c);
  }

  /** The keys have length one and are orthogonal to each other, and every step writes in full. */
  predicate Orthonormal(steps: seq<Step>, kd: nat, vd: nat)
    requires StepsOk(steps, kd, vd)
  {
    && (forall i | 0 <= i < |steps| :: steps[i].beta == 1.0)
    && forall i, j | 0 <= i < |steps| && 0 <= j < |steps| ::
         Dot(steps[i].key, steps[j].key) == if i == j then 1.0 else 0.0
  }

  /** The decay exponents of the positions after `i`. */
  function GatesAfter(steps: seq<Step>, i: nat): nat -> real {
    (k: nat) => if i + 1 + k < |steps| then steps[i + 1 + k].g else 0.0
  }

  /** The state is an associative memory: after any number of steps with orthonormal keys, reading the
      key of position `i` gives the value written there, decayed by the gates of the positions since. */
  lemma {:induction false} Recall(exp: real -> real, start: State, steps: seq<Step>, i: nat, kd: nat, vd: nat, c: nat)
    requires IsExp(exp) && StateOk(start, kd, vd) && StepsOk(steps, kd, vd) && Orthonormal(steps, kd, vd)
    requires i < |steps| && c < vd
    ensures Contract(After(exp, start, steps, kd, vd), steps[i].key, vd)[c]
         == exp(SumTo(|steps| - 1 - i, GatesAfter(steps, i))) * steps[i].value[c]
    decreases |steps|
  {
    hide *;
    var n := |steps| - 1;
    FirstOrthonormal(steps, i, kd, vd);
    LastStep(exp, start, steps, kd, vd);
    var before := After(exp, start, steps[..n], kd, vd);
    if i == n {
      DeltaRule(exp, before, steps[n], steps[i].key, kd, vd, c);
      NoGates(exp, steps);
    } else {
      Recall(exp, start, steps[..n], i, kd, vd, c);
      OneMoreGate(exp, steps, i);
      StillRecalled(exp, before, steps[n], steps[i].key, kd, vd, c,
        exp(SumTo(n - 1 - i, GatesAfter(steps[..n], i))), steps[i].value[c]);
    }
  }

  lemma LastStep(exp: real -> real, start: State, steps: seq<Step>, kd: nat, vd: nat)
    requires StateOk(start, kd, vd) && StepsOk(steps, kd, vd) && steps != []
    ensures var n := |steps| - 1;
            && StepsOk(steps[..n], kd, vd) && StepOk(steps[n], kd, vd)
            && After(exp, start, steps, kd, vd) == Advance(exp, After(exp, start, steps[..n], kd, vd), steps[n], kd, vd)
  {
  }

  lemma FirstOrthonormal(steps: seq<Step>, i: nat, kd: nat, vd: nat)
    requires StepsOk(steps, kd, vd) && Orthonormal(steps, kd, vd) && i < |steps|
    ensures var n := |steps| - 1;
            && StepsOk(steps[..n], kd, vd) && Orthonormal(steps[..n], kd, vd) && StepOk(steps[i], kd, vd)
            && steps[n].beta == 1.0 && Dot(steps[n].key, steps[i].key) == if i == n then 1.0 else 0.0
  {
  }

  lemma NoGates(exp: real -> real, steps: seq<Step>)
    requires IsExp(exp) && steps != []
    ensures exp(SumTo(0, GatesAfter(steps, |steps| - 1))) == 1.0
  {
  }

  lemma StillRecalled(exp: real -> real, before: State, s: Step, key: Vec, kd: nat, vd: nat, c: nat, kept: real,
                      value: real)
    requires StateOk(before, kd, vd) && StepOk(s, kd, vd) && |key| == kd && c < vd && Dot(s.key, key) == 0.0
    requires Contract(before, key, vd)[c] == kept * value
    ensures Contract(Advance(exp, before, s, kd, vd), key, vd)[c] == (exp(s.g) * kept) * value
  {
    hide Advance, Contract;
    DeltaRule(exp, before, s, key, kd, vd, c);
  }

  lemma OneMoreGate(exp: real -> real, steps: seq<Step>, i: nat)
    requires IsExp(exp) && i + 1 < |steps|
    ensures var n := |steps| - 1;
            exp(SumTo(n - i, GatesAfter(steps, i)))
              == exp(steps[n].g) * exp(SumTo(n - 1 - i, GatesAfter(steps[..n], i)))
  {
    var n, gates := |steps| - 1, GatesAfter(steps, i);
    SumEqual(n - 1 - i, GatesAfter(steps[..n], i), gates);
    assert SumTo(n - i, gates) == SumTo(n - 1 - i, gates) + steps[n].g;
    assert AddLaw(exp, steps[n].g, SumTo(n - 1 - i, gates));
  }

  /** So a query that repeats an earlier key, or its own, makes the scan output the value stored there. */
  lemma OutputRecalls(exp: real -> real, start: State, steps: seq<Step>, p: nat, i: nat, kd: nat, vd: nat, c: nat)
    requires IsExp(exp) && StateOk(start, kd, vd) && StepsOk(steps, kd, vd) && Orthonormal(steps, kd, vd)
    requires i <= p < |steps| && c < vd && steps[p].query == steps[i].key
    ensures OutputAt(exp, start, steps, p, kd, vd)[c]
         == exp(SumTo(p - i, GatesAfter(steps, i))) * steps[i].value[c]
  {
    hide *;
    var n := p + 1;
    OutputReads(exp, start, steps, p, kd, vd);
    PrefixOrthonormal(steps, n, kd, vd);
    PrefixGates(steps, n, i);
    Recall(exp, start, steps[..n], i, kd, vd, c);
  }

  lemma OutputReads(exp: real -> real, start: State, steps: seq<Step>, p: nat, kd: nat, vd: nat)
    requires StateOk(start, kd, vd) && StepsOk(steps, kd, vd) && p < |steps|
    ensures StepsOk(steps[..p + 1], kd, vd) && StateOk(After(exp, start, steps[..p + 1], kd, vd), kd, vd)
    ensures StepOk(steps[p], kd, vd)
    ensures OutputAt(exp, start, steps, p, kd, vd)
         == Contract(After(exp, start, steps[..p + 1], kd, vd), steps[p].query, vd)
  {
    hide After, Contract;
  }

  lemma PrefixGates(steps: seq<Step>, n: nat, i: nat)
    requires i < n <= |steps|
    ensures SumTo(n - 1 - i, GatesAfter(steps[..n], i)) == SumTo(n - 1 - i, GatesAfter(steps, i))
  {
    SumEqual(n - 1 - i, GatesAfter(steps[..n], i), GatesAfter(steps, i));
  }

  lemma PrefixOrthonormal(steps: seq<Step>, n: nat, kd: nat, vd: nat)
    requires StepsOk(steps, kd, vd) && Orthonormal(steps, kd, vd) && n <= |steps|
    ensures StepsOk(steps[..n], kd, vd) && Orthonormal(steps[..n], kd, vd)
  {
  }
}

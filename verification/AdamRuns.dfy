/** What AdamW's moments, bias corrections and steps amount to over a run of one element. */
module AdamRuns {
  import opened AdamW
  import opened Sums

  /** One element after `t` steps with the given gradients, numbered from 0. */
  function CellAfter(o: Options, sqrt: real -> real, start: AdamCell, grads: nat -> real, t: nat): AdamCell
    requires o.Valid() && IsRoot(sqrt)
  {
    if t == 0 then start else StepCell(o, sqrt, t, CellAfter(o, sqrt, start, grads, t - 1), grads(t - 1))
  }

  // ----- moments are averages

  /** The share of each of `t` values in an exponential moving average, the latest weighted `1 - beta`. */
  function Shares(beta: real, t: nat, values: nat -> real): nat -> real {
    (i: nat) => if i < t then (1.0 - beta) * Pow(beta, t - 1 - i) * values(i) else 0.0
  }

  function Squared(grads: nat -> real): nat -> real {
    (i: nat) => grads(i) * grads(i)
  }

  /** One more value: the older shares shrink by `beta`. */
  lemma NextAverage(beta: real, t: nat, values: nat -> real)
    ensures SumTo(t + 1, Shares(beta, t + 1, values))
         == beta * SumTo(t, Shares(beta, t, values)) + (1.0 - beta) * values(t)
  {
    var before, after := Shares(beta, t, values), Shares(beta, t + 1, values);
    forall i: nat | i < t ensures after(i) == beta * before(i) {
      OlderShareAt(beta, t, values, i);
    }
    hide Shares;
    SumScale(t, beta, before, after);
    LatestShare(beta, t, values);
  }

  lemma LatestShare(beta: real, t: nat, values: nat -> real)
    ensures Shares(beta, t + 1, values)(t) == (1.0 - beta) * values(t)
  {
    assert Pow(beta, 0) == 1.0;
    assert (1.0 - beta) * 1.0 == 1.0 - beta;
  }

  lemma OlderShareAt(beta: real, t: nat, values: nat -> real, i: nat)
    requires i < t
    ensures Shares(beta, t + 1, values)(i) == beta * Shares(beta, t, values)(i)
  {
    assert Pow(beta, t - i) == beta * Pow(beta, t - 1 - i);
    OlderShare(beta, Pow(beta, t - 1 - i), values(i));
  }

  lemma OlderShare(beta: real, power: real, value: real)
    ensures (1.0 - beta) * (beta * power) * value == beta * ((1.0 - beta) * power * value)
  {
  }

  /** The shares add up to the bias correction, so dividing by it makes an average. */
  lemma {:induction false} SharesSumToBias(beta: real, t: nat)
    requires 0.0 <= beta < 1.0 && t > 0
    ensures SumTo(t, Shares(beta, t, _ => 1.0)) == BiasCorrection(beta, t)
  {
    NextAverage(beta, t - 1, _ => 1.0);
    if t > 1 { SharesSumToBias(beta, t - 1); }
    assert Pow(beta, t) == beta * Pow(beta, t - 1);
  }

  /** From zero moments, the moments are the shares of the gradients and of their squares. */
  lemma {:induction false} MomentsAreShares(o: Options, sqrt: real -> real, start: AdamCell, grads: nat -> real, t: nat)
    requires o.Valid() && IsRoot(sqrt) && start.m == 0.0 && start.v == 0.0
    ensures CellAfter(o, sqrt, start, grads, t).m == SumTo(t, Shares(o.beta1, t, grads))
    ensures CellAfter(o, sqrt, start, grads, t).v == SumTo(t, Shares(o.beta2, t, Squared(grads)))
  {
    hide StepCell, Shares, Squared, IsRoot;
    if t > 0 {
      var before := CellAfter(o, sqrt, start, grads, t - 1);
      MomentsAreShares(o, sqrt, start, grads, t - 1);
      StepMoments(o, sqrt, t, before, grads(t - 1));
      NextAverage(o.beta1, t - 1, grads);
      NextAverage(o.beta2, t - 1, Squared(grads));
      SquaredAt(grads, t - 1);
    }
  }

  lemma SquaredAt(grads: nat -> real, i: nat)
    ensures Squared(grads)(i) == grads(i) * grads(i)
  {
  }

  lemma StepMoments(o: Options, sqrt: real -> real, t: nat, c: AdamCell, g: real)
    requires o.Valid() && IsRoot(sqrt) && t > 0
    ensures StepCell(o, sqrt, t, c, g).m == o.beta1 * c.m + (1.0 - o.beta1) * g
    ensures StepCell(o, sqrt, t, c, g).v == o.beta2 * c.v + (1.0 - o.beta2) * (g * g)
  {
    assert g * g * (1.0 - o.beta2) == (1.0 - o.beta2) * (g * g);
  }

  // ----- a constant gradient

  function Abs(x: real): real {
    if x >= 0.0 then x else 0.0 - x
  }

  lemma RootOfSquare(sqrt: real -> real, g: real)
    requires IsRoot(sqrt)
    ensures sqrt(g * g) == Abs(g)
  {
    Square(g);
    assert RootOf(sqrt, g * g);
    SameSquare(sqrt(g * g), Abs(g));
  }

  lemma SameSquare(a: real, b: real)
    requires a >= 0.0 && b >= 0.0 && a * a == b * b
    ensures a == b
  {
    assert (b - a) * (b + a) == 0.0;
    if b - a > 0.0 { ProductIsPositive(b - a, b + a); }
    if a - b > 0.0 { ProductIsPositive(a - b, b + a); }
  }

  lemma ProductIsPositive(a: real, b: real)
    requires a > 0.0 && b > 0.0
    ensures a * b > 0.0
  {
  }

  /** Under a constant gradient `g`, bias correction is exact at every step: the corrected moments are
      `g` and its square. */
  lemma {:induction false} ConstantGradient(o: Options, sqrt: real -> real, start: AdamCell, g: real, t: nat)
    requires o.Valid() && IsRoot(sqrt) && start.m == 0.0 && start.v == 0.0 && t > 0
    ensures CellAfter(o, sqrt, start, _ => g, t).m / BiasCorrection(o.beta1, t) == g
    ensures CellAfter(o, sqrt, start, _ => g, t).v / BiasCorrection(o.beta2, t) == g * g
  {
    hide Shares, Squared, CellAfter, IsRoot;
    var grads: nat -> real := _ => g;
    MomentsAreShares(o, sqrt, start, grads, t);
    ConstantShares(o.beta1, t, g, grads);
    forall i: nat | i < t ensures Squared(grads)(i) == g * g { SquaredAt(grads, i); }
    ConstantShares(o.beta2, t, g * g, Squared(grads));
    Cancel(g, BiasCorrection(o.beta1, t));
    Cancel(g * g, BiasCorrection(o.beta2, t));
  }

  lemma ConstantShares(beta: real, t: nat, g: real, values: nat -> real)
    requires 0.0 <= beta < 1.0 && t > 0 && forall i: nat | i < t :: values(i) == g
    ensures SumTo(t, Shares(beta, t, values)) == g * BiasCorrection(beta, t)
  {
    var ones, all := Shares(beta, t, _ => 1.0), Shares(beta, t, values);
    SharesSumToBias(beta, t);
    forall i: nat | i < t ensures all(i) == g * ones(i) {
      assert values(i) == g;
    }
    SumScale(t, g, ones, all);
  }

  lemma Cancel(g: real, b: real)
    requires b > 0.0
    ensures g * b / b == g
  {
  }

  /** And each step, after shrinking the parameter by the decay, moves it by `lr` times the gradient over
      its size, whatever the step's number. */
  lemma ConstantGradientStep(o: Options, sqrt: real -> real, start: AdamCell, g: real, t: nat)
    requires o.Valid() && IsRoot(sqrt) && start.m == 0.0 && start.v == 0.0 && t > 0
    ensures CellAfter(o, sqrt, start, _ => g, t).p
         == CellAfter(o, sqrt, start, _ => g, t - 1).p * (1.0 - o.lr * o.weightDecay)
          - o.lr * g / (Abs(g) + o.eps)
  {
    var before, after := CellAfter(o, sqrt, start, _ => g, t - 1), CellAfter(o, sqrt, start, _ => g, t);
    var bias, denominator := BiasCorrection(o.beta1, t), Abs(g) + o.eps;
    ConstantGradient(o, sqrt, start, g, t);
    RootOfSquare(sqrt, g);
    assert Denominator(o, sqrt, t, after.v) == denominator;
    assert after.p == Decayed(o, before.p) + (after.m / denominator) * (0.0 - o.lr / bias);
    MoveBy(o.lr, g, after.m, bias, denominator);
    DecayedBy(o, before.p);
  }

  lemma MoveBy(lr: real, g: real, m: real, bias: real, denominator: real)
    requires bias > 0.0 && denominator > 0.0 && m / bias == g
    ensures (m / denominator) * (0.0 - lr / bias) == 0.0 - lr * g / denominator
  {
    assert m == g * bias;
    var q, s := m / denominator, lr / bias;
    assert q * denominator == m && s * bias == lr;
    assert (q * s) * denominator == s * (g * bias) == lr * g;
  }

  lemma DecayedBy(o: Options, p: real)
    ensures Decayed(o, p) == p * (1.0 - o.lr * o.weightDecay)
  {
  }

  /** Without decay a parameter under a constant gradient moves on a line. */
  lemma {:induction false} ConstantGradientRun(o: Options, sqrt: real -> real, start: AdamCell, g: real, t: nat)
    requires o.Valid() && IsRoot(sqrt) && start.m == 0.0 && start.v == 0.0 && o.weightDecay == 0.0
    ensures CellAfter(o, sqrt, start, _ => g, t).p == start.p - t as real * (o.lr * g / (Abs(g) + o.eps))
  {
    if t > 0 {
      ConstantGradientRun(o, sqrt, start, g, t - 1);
      ConstantGradientStep(o, sqrt, start, g, t);
    }
  }
}

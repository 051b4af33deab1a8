/** AdamW on one flat shard and on whole tensors. */
module AdamW {
  import opened Results
  import opened Vectors

  datatype Options = Options(lr: real, beta1: real, beta2: real, eps: real, weightDecay: real) {
    predicate Valid() {
      lr >= 0.0 && 0.0 <= beta1 < 1.0 && 0.0 <= beta2 < 1.0 && eps > 0.0 && weightDecay >= 0.0
    }
  }

  // ----- the square root of a non-negative number

  predicate RootOf(sqrt: real -> real, x: real) {
    sqrt(x) >= 0.0 && sqrt(x) * sqrt(x) == x
  }

  ghost predicate IsRoot(sqrt: real -> real) {
    forall x | x >= 0.0 :: RootOf(sqrt, x)
  }

  // ----- one element

  datatype CellValue = Cell(p: real, m: real, v: real)

  /** Parameter, first and second moment of one element. */
  type AdamCell = c: CellValue | c.v >= 0.0 witness Cell(0.0, 0.0, 0.0)

  function Pow(b: real, n: nat): real {
    if n == 0 then 1.0 else b * Pow(b, n - 1)
  }

  lemma {:induction false} PowBelowOne(b: real, n: nat)
    requires 0.0 <= b < 1.0 && n > 0
    ensures 0.0 <= Pow(b, n) < 1.0
  {
    if n == 1 {
      assert Pow(b, 0) == 1.0;
      assert Pow(b, 1) == b;
    } else {
      var rest := Pow(b, n - 1);
      PowBelowOne(b, n - 1);
      Shrinks(b, rest);
      assert Pow(b, n) == b * rest;
    }
  }

  lemma Shrinks(a: real, b: real)
    requires 0.0 <= a < 1.0 && 0.0 <= b < 1.0
    ensures 0.0 <= a * b < 1.0
  {
    assert a * b <= 1.0 * b by { assert (1.0 - a) * b >= 0.0; }
  }

  function BiasCorrection(beta: real, t: nat): (c: real)
    requires 0.0 <= beta < 1.0 && t > 0
    ensures c > 0.0
  {
    PowBelowOne(beta, t);
    1.0 - Pow(beta, t)
  }

  function NextM(o: Options, m: real, g: real): real {
    m * o.beta1 + g * (1.0 - o.beta1)
  }

  function NextV(o: Options, v: real, g: real): (r: real)
    requires o.Valid() && v >= 0.0
    ensures r >= 0.0
  {
    NonNegative(v, o.beta2);
    Square(g);
    NonNegative(g * g, 1.0 - o.beta2);
    v * o.beta2 + g * g * (1.0 - o.beta2)
  }

  lemma Square(g: real)
    ensures g * g >= 0.0
  {
  }

  lemma NonNegative(a: real, b: real)
    requires a >= 0.0 && b >= 0.0
    ensures a * b >= 0.0
  {
  }

  function Denominator(o: Options, sqrt: real -> real, t: nat, v: real): (d: real)
    requires o.Valid() && IsRoot(sqrt) && t > 0 && v >= 0.0
    ensures d > 0.0
  {
    var bias := BiasCorrection(o.beta2, t);
    Quotient(v, bias);
    assert RootOf(sqrt, v / bias);
    sqrt(v / bias) + o.eps
  }

  lemma Quotient(a: real, b: real)
    requires a >= 0.0 && b > 0.0
    ensures a / b >= 0.0
  {
  }

  function Decayed(o: Options, p: real): real {
    if o.weightDecay != 0.0 then p + p * (0.0 - o.lr * o.weightDecay) else p
  }

  /** Step number `t` of AdamW on one element. */
  function StepCell(o: Options, sqrt: real -> real, t: nat, c: AdamCell, g: real): AdamCell
    requires o.Valid() && IsRoot(sqrt) && t > 0
  {
    var m, v := NextM(o, c.m, g), NextV(o, c.v, g);
    Cell(Decayed(o, c.p) + (m / Denominator(o, sqrt, t, v)) * (0.0 - o.lr / BiasCorrection(o.beta1, t)), m, v)
  }

  function StepCells(o: Options, sqrt: real -> real, t: nat, cells: seq<AdamCell>, grad: Vec): (next: seq<AdamCell>)
    requires o.Valid() && IsRoot(sqrt) && t > 0 && |grad| == |cells|
    ensures |next| == |cells| && forall i | 0 <= i < |cells| :: next[i] == StepCell(o, sqrt, t, cells[i], grad[i])
  {
    seq(|cells|, i requires 0 <= i < |cells| => StepCell(o, sqrt, t, cells[i], grad[i]))
  }

  /** Padding stays zero: an all-zero element with zero gradient does not move. */
  lemma ZeroStays(o: Options, sqrt: real -> real, t: nat)
    requires o.Valid() && IsRoot(sqrt) && t > 0
    ensures StepCell(o, sqrt, t, Cell(0.0, 0.0, 0.0), 0.0) == Cell(0.0, 0.0, 0.0)
  {
    assert NextM(o, 0.0, 0.0) == 0.0 && NextV(o, 0.0, 0.0) == 0.0;
    assert 0.0 / Denominator(o, sqrt, t, 0.0) == 0.0;
  }

  /** A missing gradient counts as zero on the flat path, while the tensor-wise optimizer skips the
      parameter. The two agree on an element exactly when the zero gradient leaves it alone: its moments
      are zero and decay does not act on it. */
  lemma ZeroGradientAgrees(o: Options, sqrt: real -> real, t: nat, c: AdamCell)
    requires o.Valid() && IsRoot(sqrt) && t > 0
    ensures StepCell(o, sqrt, t, c, 0.0) == c
        <==> c.m == 0.0 && c.v == 0.0 && (o.weightDecay == 0.0 || o.lr == 0.0 || c.p == 0.0)
  {
    ZeroGradientMoments(o, sqrt, t, c);
    FixedPoint(c.m, o.beta1);
    FixedPoint(c.v, o.beta2);
    if c.m == 0.0 && c.v == 0.0 {
      ZeroMoments(o, sqrt, t, c.p);
      DecayFixes(o, c.p);
      assert c == Cell(c.p, 0.0, 0.0);
    } else {
      var next := StepCell(o, sqrt, t, c, 0.0);
      assert next.m == c.m * o.beta1;
      assert next.v == c.v * o.beta2;
      assert c.m != 0.0 ==> c.m * o.beta1 != c.m;
      assert c.v != 0.0 ==> c.v * o.beta2 != c.v;
      assert next.m != c.m || next.v != c.v;
    }
  }

  /** One input where they differ: with decay and a learning rate, a parameter of 1 without a gradient shrinks. */
  lemma MissingGradientDecays(o: Options, sqrt: real -> real, t: nat)
    requires o.Valid() && IsRoot(sqrt) && t > 0 && o.lr == 0.001 && o.weightDecay == 0.01
    ensures StepCell(o, sqrt, t, Cell(1.0, 0.0, 0.0), 0.0) == Cell(0.99999, 0.0, 0.0)
  {
    ZeroMoments(o, sqrt, t, 1.0);
  }

  lemma ZeroGradientMoments(o: Options, sqrt: real -> real, t: nat, c: AdamCell)
    requires o.Valid() && IsRoot(sqrt) && t > 0
    ensures StepCell(o, sqrt, t, c, 0.0).m == c.m * o.beta1 && StepCell(o, sqrt, t, c, 0.0).v == c.v * o.beta2
  {
    assert 0.0 * (1.0 - o.beta1) == 0.0 && 0.0 * 0.0 * (1.0 - o.beta2) == 0.0;
  }

  lemma ZeroMoments(o: Options, sqrt: real -> real, t: nat, p: real)
    requires o.Valid() && IsRoot(sqrt) && t > 0
    ensures StepCell(o, sqrt, t, Cell(p, 0.0, 0.0), 0.0) == Cell(Decayed(o, p), 0.0, 0.0)
  {
    assert NextM(o, 0.0, 0.0) == 0.0 && NextV(o, 0.0, 0.0) == 0.0;
    assert 0.0 / Denominator(o, sqrt, t, 0.0) == 0.0;
  }

  lemma FixedPoint(x: real, beta: real)
    requires beta < 1.0
    ensures x * beta == x <==> x == 0.0
  {
    if x != 0.0 { assert x * (1.0 - beta) != 0.0; }
  }

  lemma DecayFixes(o: Options, p: real)
    ensures Decayed(o, p) == p <==> o.weightDecay == 0.0 || o.lr == 0.0 || p == 0.0
  {
    if o.weightDecay != 0.0 && o.lr != 0.0 && p != 0.0 {
      assert o.lr * o.weightDecay != 0.0;
      assert p * (0.0 - o.lr * o.weightDecay) != 0.0;
    }
  }

  // ----- tensor operations

  /** a.add_(b, alpha) */
  function AddScaled(a: Vec, b: Vec, alpha: real): (r: Vec)
    requires |a| == |b|
    ensures |r| == |a|
  {
    seq(|a|, i requires 0 <= i < |a| => a[i] + b[i] * alpha)
  }

  /** a.addcmul_(x, y, value) */
  function AddCMul(a: Vec, x: Vec, y: Vec, value: real): (r: Vec)
    requires |a| == |x| == |y|
    ensures |r| == |a|
  {
    seq(|a|, i requires 0 <= i < |a| => a[i] + x[i] * y[i] * value)
  }

  /** a.addcdiv_(x, y, value) */
  function AddCDiv(a: Vec, x: Vec, y: Vec, value: real): (r: Vec)
    requires |a| == |x| == |y| && forall i | 0 <= i < |y| :: y[i] != 0.0
    ensures |r| == |a|
  {
    seq(|a|, i requires 0 <= i < |a| => a[i] + (x[i] / y[i]) * value)
  }

  predicate NonNegatives(v: Vec) {
    forall i | 0 <= i < |v| :: v[i] >= 0.0
  }

  /** (v / bias).sqrt_().add_(eps) */
  function Denominators(o: Options, sqrt: real -> real, t: nat, v: Vec): (r: Vec)
    requires o.Valid() && IsRoot(sqrt) && t > 0 && NonNegatives(v)
    ensures |r| == |v| && forall i | 0 <= i < |v| :: r[i] == Denominator(o, sqrt, t, v[i]) > 0.0
  {
    seq(|v|, i requires 0 <= i < |v| => Denominator(o, sqrt, t, v[i]))
  }

  function Cells(p: Vec, m: Vec, v: Vec): (cells: seq<AdamCell>)
    requires |p| == |m| == |v| && NonNegatives(v)
    ensures |cells| == |p| && forall i | 0 <= i < |p| :: cells[i] == Cell(p[i], m[i], v[i])
  {
    seq(|p|, i requires 0 <= i < |p| => Cell(p[i], m[i], v[i]))
  }

  /** exp_avg.mul_(beta1).add_(grad, 1 - beta1) */
  function FirstMoments(o: Options, m: Vec, grad: Vec): (r: Vec)
    requires |m| == |grad|
    ensures |r| == |m| && forall i | 0 <= i < |m| :: r[i] == NextM(o, m[i], grad[i])
  {
    AddScaled(Scale(m, o.beta1), grad, 1.0 - o.beta1)
  }

  /** exp_avg_sq.mul_(beta2).addcmul_(grad, grad, 1 - beta2) */
  function SecondMoments(o: Options, v: Vec, grad: Vec): (r: Vec)
    requires o.Valid() && |v| == |grad| && NonNegatives(v)
    ensures |r| == |v| && NonNegatives(r) && forall i | 0 <= i < |v| :: r[i] == NextV(o, v[i], grad[i])
  {
    var r := AddCMul(Scale(v, o.beta2), grad, grad, 1.0 - o.beta2);
    assert forall i | 0 <= i < |v| :: r[i] == NextV(o, v[i], grad[i]);
    r
  }

  function DecayedAll(o: Options, p: Vec): (r: Vec)
    ensures |r| == |p| && forall i | 0 <= i < |p| :: r[i] == Decayed(o, p[i])
  {
    if o.weightDecay != 0.0 then AddScaled(p, p, 0.0 - o.lr * o.weightDecay) else p
  }

  /** The sequence of tensor operations that both optimizers run in place. */
  method UpdateTensor(o: Options, sqrt: real -> real, t: nat, p: Vec, m: Vec, v: Vec, grad: Vec)
    returns (p': Vec, m': Vec, v': Vec)
    requires o.Valid() && IsRoot(sqrt) && t > 0 && |p| == |m| == |v| == |grad| && NonNegatives(v)
    ensures |p'| == |m'| == |v'| == |p| && NonNegatives(v')
    ensures Cells(p', m', v') == StepCells(o, sqrt, t, Cells(p, m, v), grad)
  {
    m' := FirstMoments(o, m, grad);
    v' := SecondMoments(o, v, grad);
    p' := AddCDiv(DecayedAll(o, p), m', Denominators(o, sqrt, t, v'), 0.0 - o.lr / BiasCorrection(o.beta1, t));
    forall i | 0 <= i < |p| ensures Cell(p'[i], m'[i], v'[i]) == StepCell(o, sqrt, t, Cell(p[i], m[i], v[i]), grad[i]) {
      StepOfParts(o, sqrt, t, p[i], m[i], v[i], grad[i], p'[i], m'[i], v'[i]);
    }
  }

  lemma StepOfParts(o: Options, sqrt: real -> real, t: nat, p: real, m: real, v: real, g: real, p': real, m': real,
                    v': real)
    requires o.Valid() && IsRoot(sqrt) && t > 0 && v >= 0.0 && v' >= 0.0
    requires m' == NextM(o, m, g) && v' == NextV(o, v, g)
    requires p' == Decayed(o, p) + (m' / Denominator(o, sqrt, t, v')) * (0.0 - o.lr / BiasCorrection(o.beta1, t))
    ensures Cell(p', m', v') == StepCell(o, sqrt, t, Cell(p, m, v), g)
  {
  }

  // ----- the optimizer of one flat shard

  class FlatAdamW {
    const options: Options
    var parameterShard: Vec
    var expAvg: Vec
    var expAvgSq: Vec
    var step: nat

    ghost predicate Valid()
      reads this
    {
      options.Valid() && |parameterShard| == |expAvg| == |expAvgSq| && NonNegatives(expAvgSq)
    }

    ghost function State(): seq<AdamCell>
      reads this
      requires Valid()
    {
      Cells(parameterShard, expAvg, expAvgSq)
    }

    constructor (shard: Vec, options: Options)
      requires options.Valid()
      ensures Valid() && this.options == options && step == 0 && parameterShard == shard
      ensures State() == Fresh(shard)
    {
      this.options := options;
      parameterShard := shard;
      expAvg := Zeros(|shard|);
      expAvgSq := Zeros(|shard|);
      step := 0;
    }

    method Step(sqrt: real -> real, gradientShard: Vec) returns (r: Result<()>)
      requires Valid() && IsRoot(sqrt)
      modifies this
      ensures Valid()
      ensures r.Ok? <==> |gradientShard| == |old(parameterShard)|
      ensures r.Ok? ==> step == old(step) + 1 && State() == StepCells(options, sqrt, step, old(State()), gradientShard)
      ensures r.Err? ==> step == old(step) && State() == old(State())
    {
      if |gradientShard| != |parameterShard| {
        return Err("FlatAdamW::step: gradient shard shape mismatch");
      }
      step := step + 1;
      parameterShard, expAvg, expAvgSq := UpdateTensor(options, sqrt, step, parameterShard, expAvg, expAvgSq,
        gradientShard);
      return Ok(());
    }
  }

  /** An optimizer's state before its first step. */
  function Fresh(p: Vec): (cells: seq<AdamCell>)
    ensures |cells| == |p| && forall i | 0 <= i < |p| :: cells[i] == Cell(p[i], 0.0, 0.0)
  {
    seq(|p|, i requires 0 <= i < |p| => Cell(p[i], 0.0, 0.0))
  }
}

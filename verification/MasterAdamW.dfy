/** The unsharded optimizer with fp32 master weights, tensor by tensor. */
module MasterAdamW {
  import opened AdamW
  import opened Results
  import opened Sums
  import opened Vectors

  predicate Shapes(tensors: seq<Vec>, numels: seq<nat>) {
    |tensors| == |numels| && forall i | 0 <= i < |numels| :: |tensors[i]| == numels[i]
  }

  function Squares(v: Vec): nat -> real {
    (i: nat) => if i < |v| then v[i] * v[i] else 0.0
  }

  /** grad.pow(2).sum() */
  function SumSquares(v: Vec): real {
    SumTo(|v|, Squares(v))
  }

  /** The squared norm of the gradients that are there. */
  function NormSq(grads: seq<Option<Vec>>): real {
    if grads == [] then 0.0
    else
      var n := |grads| - 1;
      NormSq(grads[..n]) + if grads[n].Some? then SumSquares(grads[n].value) else 0.0
  }

  function ZeroTensors(numels: seq<nat>): (r: seq<Vec>)
    ensures Shapes(r, numels) && forall i | 0 <= i < |r| :: r[i] == Zeros(numels[i])
  {
    seq(|numels|, i requires 0 <= i < |numels| => Zeros(numels[i]))
  }

  function Numels(tensors: seq<Vec>): (r: seq<nat>)
    ensures Shapes(tensors, r)
  {
    seq(|tensors|, i requires 0 <= i < |tensors| => |tensors[i]|)
  }

  class Fp32MasterAdamW {
    const options: Options
    const numels: seq<nat>
    var model: seq<Vec>
    var modelGrad: seq<Option<Vec>>
    var master: seq<Vec>
    var mainGrad: seq<Vec>
    var hasMainGrad: seq<bool>
    var expAvg: seq<Vec>
    var expAvgSq: seq<Vec>
    var step: nat

    ghost predicate Valid()
      reads this
    {
      && options.Valid()
      && Shapes(model, numels) && Shapes(master, numels) && Shapes(mainGrad, numels) && Shapes(expAvg, numels)
        && Shapes(expAvgSq, numels)
      && |modelGrad| == |hasMainGrad| == |numels|
      && (forall i | 0 <= i < |numels| :: modelGrad[i].Some? ==> |modelGrad[i].value| == numels[i])
      && (forall i | 0 <= i < |numels| :: NonNegatives(expAvgSq[i]))
    }

    /** The gradient a step would use for tensor i. */
    function GradOf(i: nat): (g: Option<Vec>)
      reads this
      requires i < |hasMainGrad| == |mainGrad| == |modelGrad|
    {
      if hasMainGrad[i] then Some(mainGrad[i]) else modelGrad[i]
    }

    function Grads(): (grads: seq<Option<Vec>>)
      reads this
      requires |hasMainGrad| == |mainGrad| == |modelGrad|
      ensures |grads| == |modelGrad| && forall i | 0 <= i < |grads| :: grads[i] == GradOf(i)
    {
      seq(|modelGrad|, i requires 0 <= i < |modelGrad| reads this requires |hasMainGrad| == |mainGrad|
        == |modelGrad| => GradOf(i))
    }

    ghost function TensorState(i: nat): seq<AdamCell>
      reads this
      requires Valid() && i < |numels|
    {
      Cells(master[i], expAvg[i], expAvgSq[i])
    }

    constructor (parameters: seq<Vec>, options: Options)
      requires options.Valid()
      ensures Valid() && this.options == options && step == 0 && model == master == parameters
      ensures numels == Numels(parameters)
      ensures forall i | 0 <= i < |numels| ::
          !hasMainGrad[i] && modelGrad[i] == None && TensorState(i) == Fresh(parameters[i])
    {
      this.options := options;
      numels := Numels(parameters);
      model, master := parameters, parameters;
      mainGrad, expAvg, expAvgSq := ZeroTensors(Numels(parameters)), ZeroTensors(Numels(parameters)),
        ZeroTensors(Numels(parameters));
      hasMainGrad, modelGrad := seq(|parameters|, _ => false), seq(|parameters|, _ => None);
      step := 0;
    }

    /** Zero all gradients; model gradients that exist stay allocated. */
    method ZeroGrad()
      requires Valid()
      modifies this`mainGrad, this`hasMainGrad, this`modelGrad
      ensures Valid()
      ensures forall i | 0 <= i < |numels| :: !hasMainGrad[i] && mainGrad[i] == Zeros(numels[i])
      ensures forall i | 0 <= i < |numels| ::
          modelGrad[i] == if old(modelGrad[i]).Some? then Some(Zeros(numels[i])) else None
    {
      var i := 0;
      while i < |numels|
        invariant i <= |numels| && Valid()
        invariant forall k | 0 <= k < i :: !hasMainGrad[k] && mainGrad[k] == Zeros(numels[k])
        invariant forall k | 0 <= k < i ::
            modelGrad[k] == if old(modelGrad[k]).Some? then Some(Zeros(numels[k])) else None
        invariant forall k | i <= k < |numels| :: modelGrad[k] == old(modelGrad[k])
      {
        if modelGrad[i].Some? {
          modelGrad := modelGrad[i := Some(Zeros(numels[i]))];
        }
        mainGrad := mainGrad[i := Zeros(numels[i])];
        hasMainGrad := hasMainGrad[i := false];
        i := i + 1;
      }
    }

    /** Add the scaled model gradients to the main ones and clear them. */
    method AccumulateModelGrads(scale: real)
      requires Valid()
      modifies this`mainGrad, this`hasMainGrad, this`modelGrad
      ensures Valid()
      ensures forall i | 0 <= i < |numels| :: old(modelGrad[i]).None? ==>
                modelGrad[i] == None && mainGrad[i] == old(mainGrad[i]) && hasMainGrad[i] == old(hasMainGrad[i])
      ensures forall i | 0 <= i < |numels| :: old(modelGrad[i]).Some? ==>
                modelGrad[i] == Some(Zeros(numels[i])) && hasMainGrad[i]
                && mainGrad[i] == AddScaled(old(mainGrad[i]), old(modelGrad[i]).value, scale)
    {
      var i := 0;
      while i < |numels|
        invariant i <= |numels| && Valid()
        invariant forall k | 0 <= k < i :: old(modelGrad[k]).None? ==>
                    modelGrad[k] == None && mainGrad[k] == old(mainGrad[k]) && hasMainGrad[k] == old(hasMainGrad[k])
        invariant forall k | 0 <= k < i :: old(modelGrad[k]).Some? ==>
                    modelGrad[k] == Some(Zeros(numels[k])) && hasMainGrad[k]
                    && mainGrad[k] == AddScaled(old(mainGrad[k]), old(modelGrad[k]).value, scale)
        invariant forall k | i <= k < |numels| ::
                    modelGrad[k] == old(modelGrad[k]) && mainGrad[k] == old(mainGrad[k])
                      && hasMainGrad[k] == old(hasMainGrad[k])
      {
        if modelGrad[i].Some? {
          mainGrad := mainGrad[i := AddScaled(mainGrad[i], modelGrad[i].value, scale)];
          modelGrad := modelGrad[i := Some(Zeros(numels[i]))];
          hasMainGrad := hasMainGrad[i := true];
        }
        i := i + 1;
      }
    }

    method GradL2NormSq() returns (total: real)
      requires Valid()
      ensures total == NormSq(Grads())
    {
      total := 0.0;
      var i := 0;
      while i < |numels|
        invariant i <= |numels| && total == NormSq(Grads()[..i])
      {
        assert Grads()[..i + 1][..i] == Grads()[..i];
        if hasMainGrad[i] {
          total := total + SumSquares(mainGrad[i]);
        } else if modelGrad[i].Some? {
          total := total + SumSquares(modelGrad[i].value);
        }
        i := i + 1;
      }
      assert Grads()[..i] == Grads();
    }

    /** Scale the gradient that a step would use. */
    method ScaleGradients(scale: real)
      requires Valid()
      modifies this`mainGrad, this`modelGrad
      ensures Valid()
      ensures forall i | 0 <= i < |numels| ::
          GradOf(i) == if old(GradOf(i)).Some? then Some(Scale(old(GradOf(i)).value, scale)) else None
    {
      var i := 0;
      while i < |numels|
        invariant i <= |numels| && Valid()
        invariant forall k | 0 <= k < i ::
            GradOf(k) == if old(GradOf(k)).Some? then Some(Scale(old(GradOf(k)).value, scale)) else None
        invariant forall k | i <= k < |numels| :: mainGrad[k] == old(mainGrad[k]) && modelGrad[k] == old(modelGrad[k])
      {
        if hasMainGrad[i] {
          mainGrad := mainGrad[i := Scale(mainGrad[i], scale)];
        } else if modelGrad[i].Some? {
          modelGrad := modelGrad[i := Some(Scale(modelGrad[i].value, scale))];
        }
        i := i + 1;
      }
    }

    /** One tensor's part of a step: AdamW if it has a gradient, nothing otherwise. */
    method StepTensor(sqrt: real -> real, i: nat)
      requires Valid() && IsRoot(sqrt) && i < |numels| && step > 0
      modifies this`master, this`model, this`expAvg, this`expAvgSq
      ensures Valid()
      ensures GradOf(i).Some? ==> model[i] == master[i]
      ensures GradOf(i).Some? ==> TensorState(i) == StepCells(options, sqrt, step, old(TensorState(i)), GradOf(i).value)
      ensures GradOf(i).None? ==> model[i] == old(model[i]) && TensorState(i) == old(TensorState(i))
      ensures forall k | 0 <= k < |numels| && k != i ::
                model[k] == old(model[k]) && master[k] == old(master[k]) && expAvg[k] == old(expAvg[k])
                  && expAvgSq[k] == old(expAvgSq[k])
    {
      var grad := GradOf(i);
      if grad.None? { return; }
      var p, m, v := UpdateTensor(options, sqrt, step, master[i], expAvg[i], expAvgSq[i], grad.value);
      master, expAvg, expAvgSq := master[i := p], expAvg[i := m], expAvgSq[i := v];
      model := model[i := p];
    }

    /** AdamW on every tensor that has a gradient; the others are not touched, not even decayed. */
    method Step(sqrt: real -> real)
      requires Valid() && IsRoot(sqrt)
      modifies this`step, this`master, this`model, this`expAvg, this`expAvgSq
      ensures Valid() && step == old(step) + 1
      ensures forall i: nat | i < |numels| :: GradOf(i).Some? ==>
                model[i] == master[i] && TensorState(i)
                  == StepCells(options, sqrt, step, old(TensorState(i)), GradOf(i).value)
      ensures forall i: nat | i < |numels| ::
          GradOf(i).None? ==> model[i] == old(model[i]) && TensorState(i) == old(TensorState(i))
    {
      hide IsRoot;
      step := step + 1;
      var i := 0;
      while i < |numels|
        invariant i <= |numels| && Valid() && step == old(step) + 1
        invariant forall k: nat | k < i :: GradOf(k).Some? ==>
                    model[k] == master[k] && TensorState(k)
                      == StepCells(options, sqrt, step, old(TensorState(k)), GradOf(k).value)
        invariant forall k: nat | k < i ::
            GradOf(k).None? ==> model[k] == old(model[k]) && TensorState(k) == old(TensorState(k))
        invariant forall k | i <= k < |numels| ::
                    model[k] == old(model[k]) && master[k] == old(master[k]) && expAvg[k] == old(expAvg[k])
                      && expAvgSq[k] == old(expAvgSq[k])
      {
        StepTensor(sqrt, i);
        i := i + 1;
      }
    }
  }
}

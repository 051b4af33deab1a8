/** What clipping by the global norm does to a gradient. */
module GradientClipping {
  import opened AdamRuns
  import opened AdamW
  import opened MasterAdamW
  import opened ShardedAdamW
  import opened Sums
  import opened Vectors

  /** The squared norm is the product of a gradient with itself. */
  lemma SquaresAreDot(v: Vec)
    ensures SumSquares(v) == Dot(v, v) >= 0.0
  {
    SumEqual(|v|, Squares(v), Products(v, v));
    SquaresAreNonNegative(v, |v|);
  }

  function Norm(sqrt: real -> real, v: Vec): (n: real)
    requires IsRoot(sqrt)
    ensures n >= 0.0 && n * n == Dot(v, v)
  {
    SquaresAreDot(v);
    assert RootOf(sqrt, Dot(v, v));
    sqrt(Dot(v, v))
  }

  lemma ScaledNorm(sqrt: real -> real, v: Vec, factor: real)
    requires IsRoot(sqrt) && factor >= 0.0
    ensures Norm(sqrt, Scale(v, factor)) == factor * Norm(sqrt, v)
  {
    var n := Norm(sqrt, v);
    DotScale(Scale(v, factor), v, factor);
    DotScale(v, v, factor);
    assert Dot(Scale(v, factor), Scale(v, factor)) == factor * (factor * Dot(v, v));
    SquareOfProduct(factor, n);
    SameSquare(Norm(sqrt, Scale(v, factor)), factor * n);
  }

  lemma SquareOfProduct(a: real, b: real)
    requires a >= 0.0 && b >= 0.0
    ensures (a * b) * (a * b) == a * (a * (b * b)) && a * b >= 0.0
  {
  }

  /** A gradient within the limit, or without one, is left alone. Any other keeps its direction and ends
      just below the limit. */
  lemma ClippedNorm(sqrt: real -> real, maxNorm: real, grad: Vec)
    requires IsRoot(sqrt)
    ensures maxNorm <= 0.0 || Norm(sqrt, grad) <= maxNorm ==> Clipped(sqrt, maxNorm, grad) == grad
    ensures maxNorm > 0.0 && Norm(sqrt, grad) > maxNorm ==>
              && Clipped(sqrt, maxNorm, grad) == Scale(grad, maxNorm / (Norm(sqrt, grad) + 0.000001))
              && Norm(sqrt, Clipped(sqrt, maxNorm, grad))
                   == maxNorm * Norm(sqrt, grad) / (Norm(sqrt, grad) + 0.000001)
    ensures maxNorm > 0.0 ==> Norm(sqrt, Clipped(sqrt, maxNorm, grad)) <= maxNorm
  {
    var n := Norm(sqrt, grad);
    SquaresAreDot(grad);
    if maxNorm > 0.0 && n > maxNorm {
      BelowLimit(maxNorm, n, n + 0.000001);
      ScaledNorm(sqrt, grad, maxNorm / (n + 0.000001));
    } else {
      assert Scale(grad, 1.0) == grad;
    }
  }

  lemma BelowLimit(limit: real, n: real, d: real)
    requires limit > 0.0 && 0.0 < n < d
    ensures limit / d >= 0.0 && limit / d * n == limit * n / d <= limit
  {
    var q := limit / d;
    assert q * d == limit;
    assert q > 0.0;
    assert q * n <= q * d by { assert q * (d - n) >= 0.0; }
    assert (q * n) * d == limit * n;
  }
}

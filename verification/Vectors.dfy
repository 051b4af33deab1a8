/** Rows of reals, and the entry-wise operations on them. */
module Vectors {
  import opened Sums

  type Vec = seq<real>

  predicate Widths(vectors: seq<Vec>, width: nat) {
    forall i | 0 <= i < |vectors| :: |vectors[i]| == width
  }

  function Add(a: Vec, b: Vec): (c: Vec)
    requires |a| == |b|
    ensures |c| == |a|
  {
    seq(|a|, i requires 0 <= i < |a| => a[i] + b[i])
  }

  function Scale(a: Vec, factor: real): (c: Vec)
    ensures |c| == |a| && forall i | 0 <= i < |a| :: c[i] == a[i] * factor
  {
    seq(|a|, i requires 0 <= i < |a| => a[i] * factor)
  }

  /** narrow(from, |part|).copy_(part) */
  function CopyInto(out: Vec, from: nat, part: Vec): (r: Vec)
    requires from + |part| <= |out|
    ensures |r| == |out| && forall k: nat | k < |out| ::
        r[k] == if from <= k < from + |part| then part[k - from] else out[k]
  {
    seq(|out|, k requires 0 <= k < |out| => if from <= k < from + |part| then part[k - from] else out[k])
  }

  function Zeros(n: nat): (zeros: Vec)
    ensures |zeros| == n && forall i | 0 <= i < n :: zeros[i] == 0.0
  {
    seq(n, _ => 0.0)
  }

  function ZeroRows(n: nat, width: nat): (rows: seq<Vec>)
    ensures |rows| == n && Widths(rows, width) && forall i | 0 <= i < n :: rows[i] == Zeros(width)
  {
    seq(n, _ => Zeros(width))
  }

  /** The sum of all ranks' vectors. */
  function TotalOf(vectors: seq<Vec>, width: nat): (total: Vec)
    requires Widths(vectors, width)
    ensures |total| == width
  {
    seq(width, c requires 0 <= c < width => SumTo(|vectors|, Entry(vectors, width, c)))
  }

  function Entry(vectors: seq<Vec>, width: nat, c: nat): nat -> real
    requires Widths(vectors, width) && c < width
  {
    (p: nat) => if p < |vectors| then vectors[p][c] else 0.0
  }

  // ----- the inner product

  /** The vector of length `n` with a one at `i`. */
  function Unit(n: nat, i: nat): (u: Vec)
    requires i < n
    ensures |u| == n && forall k | 0 <= k < n :: u[k] == if k == i then 1.0 else 0.0
  {
    seq(n, k => if k == i then 1.0 else 0.0)
  }

  /** A product with a unit vector reads one entry, the first included, from either side. */
  lemma DotUnit(a: Vec, i: nat)
    requires i < |a|
    ensures Dot(a, Unit(|a|, i)) == a[i] == Dot(Unit(|a|, i), a)
  {
    var f := Products(a, Unit(|a|, i));
    forall k: nat | k < |a| && k != i ensures f(k) == 0.0 { assert f(k) == a[k] * 0.0; }
    SumOneTerm(|a|, i, f);
    assert f(i) == a[i] * 1.0;
    DotSymmetric(a, Unit(|a|, i));
  }

  lemma {:induction false} SumOneTerm(n: nat, i: nat, f: nat -> real)
    requires i < n && forall k: nat | k < n && k != i :: f(k) == 0.0
    ensures SumTo(n, f) == f(i)
  {
    if i == n - 1 { SumZero(n - 1, f); } else { SumOneTerm(n - 1, i, f); }
  }

  lemma DotSymmetric(a: Vec, b: Vec)
    requires |a| == |b|
    ensures Dot(a, b) == Dot(b, a)
  {
    SumEqual(|a|, Products(a, b), Products(b, a));
  }

  /** One more coordinate, at either end, adds its product. */
  lemma DotAppend(a: Vec, b: Vec, x: real, y: real)
    requires |a| == |b|
    ensures Dot(a + [x], b + [y]) == Dot(a, b) + x * y
    ensures Dot([x] + a, [y] + b) == x * y + Dot(a, b)
  {
    var f, last, first := Products(a, b), Products(a + [x], b + [y]), Products([x] + a, [y] + b);
    SumEqual(|a|, last, f);
    assert last(|a|) == x * y;
    SumFirst(|a|, first, f);
    assert first(0) == x * y;
  }

  /** Additive in the second argument, and by symmetry in the first. */
  lemma DotAdd(a: Vec, b: Vec, c: Vec)
    requires |a| == |b| == |c|
    ensures Dot(a, Add(b, c)) == Dot(a, b) + Dot(a, c) && Dot(Add(b, c), a) == Dot(b, a) + Dot(c, a)
  {
    hide Dot;
    assert Dot(a, Add(b, c)) == Dot(a, b) + Dot(a, c) by { DotAddRight(a, b, c); }
    DotSymmetric(a, Add(b, c));
    DotSymmetric(a, b);
    DotSymmetric(a, c);
  }

  lemma DotAddRight(a: Vec, b: Vec, c: Vec)
    requires |a| == |b| == |c|
    ensures Dot(a, Add(b, c)) == Dot(a, b) + Dot(a, c)
  {
    var f, g, both := Products(a, b), Products(a, c), Products(a, Add(b, c));
    forall i: nat | i < |a| ensures both(i) == f(i) + g(i) { assert both(i) == a[i] * (b[i] + c[i]); }
    SumAdd(|a|, f, g, both);
  }

  lemma DotScale(a: Vec, b: Vec, factor: real)
    requires |a| == |b|
    ensures Dot(a, Scale(b, factor)) == factor * Dot(a, b) && Dot(Scale(b, factor), a) == factor * Dot(b, a)
  {
    hide Dot;
    assert Dot(a, Scale(b, factor)) == factor * Dot(a, b) by { DotScaleRight(a, b, factor); }
    DotSymmetric(a, Scale(b, factor));
    DotSymmetric(a, b);
  }

  lemma DotScaleRight(a: Vec, b: Vec, factor: real)
    requires |a| == |b|
    ensures Dot(a, Scale(b, factor)) == factor * Dot(a, b)
  {
    var f, scaled := Products(a, b), Products(a, Scale(b, factor));
    forall i: nat | i < |a| ensures scaled(i) == factor * f(i) {
      assert scaled(i) == a[i] * (b[i] * factor);
      Commute(a[i], b[i], factor);
    }
    SumScale(|a|, factor, f, scaled);
  }

  lemma Commute(x: real, y: real, factor: real)
    ensures x * (y * factor) == factor * (x * y)
  {
  }
}

/**
 * Vectors of the engine (`std::vector<double>`, modelled over `real`) and the
 * three in-place helpers every operator uses (nnops.h). A helper updates its
 * first argument in place; here it returns the updated vector, which the
 * caller assigns back to the variable it passed.
 */
module Vectors {

  type Vector = seq<real>

  /** Elementwise sum. */
  function Plus(a: Vector, b: Vector): Vector
    requires |a| == |b|
  {
    seq(|a|, i requires 0 <= i < |a| => a[i] + b[i])
  }

  /** Elementwise difference. */
  function Minus(a: Vector, b: Vector): Vector
    requires |a| == |b|
  {
    seq(|a|, i requires 0 <= i < |a| => a[i] - b[i])
  }

  /** Elementwise (Hadamard) product. */
  function Times(a: Vector, b: Vector): Vector
    requires |a| == |b|
  {
    seq(|a|, i requires 0 <= i < |a| => a[i] * b[i])
  }

  function Neg(a: Vector): Vector
  {
    seq(|a|, i requires 0 <= i < |a| => -a[i])
  }

  function Scale(c: real, a: Vector): Vector
  {
    seq(|a|, i requires 0 <= i < |a| => c * a[i])
  }

  /** `std::vector<double>(n, x)`. */
  function Fill(n: nat, x: real): Vector
  {
    seq(n, _ => x)
  }

  /** `std::vector<double>(n)`: value-initialised, so all zeros. */
  function Zeros(n: nat): Vector
  {
    Fill(n, 0.0)
  }

  /** Sum of the entries, added from the first to the last. */
  function Total(a: Vector): real
  {
    if a == [] then 0.0 else Total(a[..|a| - 1]) + a[|a| - 1]
  }

  /** Inner product; the pairing under which a gradient is the adjoint of a derivative. */
  function Inner(a: Vector, b: Vector): real
    requires |a| == |b|
  {
    Total(Times(a, b))
  }

  /** nnops.h add_to_vector: x[i] += y[i] for every i. */
  method AddToVector(x: Vector, y: Vector) returns (r: Vector)
    requires |x| == |y|
    ensures |r| == |x|
    ensures forall i :: 0 <= i < |r| ==> r[i] == x[i] + y[i]
  {
    r := x;
    var i := 0;
    while i < |r|
      invariant 0 <= i <= |r| == |x|
      invariant forall k :: 0 <= k < i ==> r[k] == x[k] + y[k]
      invariant forall k :: i <= k < |r| ==> r[k] == x[k]
    {
      r := r[i := r[i] + y[i]];
      i := i + 1;
    }
  }

  /** nnops.h subtract_from_vector: a[i] -= b[i] for every i. */
  method SubtractFromVector(a: Vector, b: Vector) returns (r: Vector)
    requires |a| == |b|
    ensures |r| == |a|
    ensures forall i :: 0 <= i < |r| ==> r[i] == a[i] - b[i]
  {
    r := a;
    var i := 0;
    while i < |r|
      invariant 0 <= i <= |r| == |a|
      invariant forall k :: 0 <= k < i ==> r[k] == a[k] - b[k]
      invariant forall k :: i <= k < |r| ==> r[k] == a[k]
    {
      r := r[i := r[i] - b[i]];
      i := i + 1;
    }
  }

  /** nnops.h hadamard: x[i] *= y[i] for every i. */
  method Hadamard(x: Vector, y: Vector) returns (r: Vector)
    requires |x| == |y|
    ensures |r| == |x|
    ensures forall i :: 0 <= i < |r| ==> r[i] == x[i] * y[i]
  {
    r := x;
    var i := 0;
    while i < |r|
      invariant 0 <= i <= |r| == |x|
      invariant forall k :: 0 <= k < i ==> r[k] == x[k] * y[k]
      invariant forall k :: i <= k < |r| ==> r[k] == x[k]
    {
      r := r[i := r[i] * y[i]];
      i := i + 1;
    }
  }

  /** Sums split over an elementwise sum. */
  lemma {:induction false} TotalPlus(a: Vector, b: Vector)
    requires |a| == |b|
    ensures Total(Plus(a, b)) == Total(a) + Total(b)
  {
    if |a| > 0 {
      var n := |a| - 1;
      assert Plus(a, b)[..n] == Plus(a[..n], b[..n]);
      TotalPlus(a[..n], b[..n]);
    }
  }

  /** A constant factor comes out of a sum. */
  lemma {:induction false} TotalScale(c: real, a: Vector)
    ensures Total(Scale(c, a)) == c * Total(a)
  {
    if |a| > 0 {
      var n := |a| - 1;
      assert forall i :: 0 <= i < n ==> Scale(c, a)[..n][i] == Scale(c, a[..n])[i];
      assert Scale(c, a)[..n] == Scale(c, a[..n]);
      TotalScale(c, a[..n]);
    }
  }

  /** The inner product is linear in its second argument. */
  lemma InnerPlus(g: Vector, a: Vector, b: Vector)
    requires |g| == |a| == |b|
    ensures Inner(g, Plus(a, b)) == Inner(g, a) + Inner(g, b)
  {
    forall i | 0 <= i < |g|
      ensures Times(g, Plus(a, b))[i] == Plus(Times(g, a), Times(g, b))[i]
    {
      calc {
        Times(g, Plus(a, b))[i];
        g[i] * (a[i] + b[i]);
        g[i] * a[i] + g[i] * b[i];
      }
    }
    assert Times(g, Plus(a, b)) == Plus(Times(g, a), Times(g, b));
    TotalPlus(Times(g, a), Times(g, b));
  }

  /** Pairing with a constant vector is the constant times the sum. */
  lemma InnerFill(x: real, d: Vector)
    ensures Inner(Fill(|d|, x), d) == x * Total(d)
  {
    FillTimes(x, d);
    TotalScale(x, d);
  }

  /** Multiplying by a constant vector scales. */
  lemma FillTimes(x: real, d: Vector)
    ensures Times(Fill(|d|, x), d) == Scale(x, d)
  {
    var f := Fill(|d|, x);
    forall i | 0 <= i < |d| ensures Times(f, d)[i] == Scale(x, d)[i] {
    }
  }

  lemma {:induction false} TotalZeros(n: nat)
    ensures Total(Zeros(n)) == 0.0
  {
    if n > 0 {
      assert Zeros(n)[..n - 1] == Zeros(n - 1);
      TotalZeros(n - 1);
    }
  }
}

/**
 * What the operator passes of nnops.h promise: the arity a forward pass
 * records, the shapes of the adjoints its backward pass returns, that each
 * backward pass is the adjoint (transpose) of the operator's derivative, and
 * how the in-place updates of the caches change a repeated backward pass.
 */
module OpLaws {
  import opened Wrappers
  import opened Vectors
  import opened Ops

  /** One direction vector per input, each as long as that input. */
  predicate ShapesMatch(input: seq<Vector>, ds: seq<Vector>)
  {
    |ds| == |input| && forall i :: 0 <= i < |ds| ==> |ds[i]| == |input[i]|
  }

  /** Sum over the inputs of the pairing of each adjoint with its direction. */
  function InnerAll(adjoints: seq<Vector>, ds: seq<Vector>): real
    requires ShapesMatch(adjoints, ds)
  {
    if ds == [] then 0.0
    else
      var m := |ds| - 1;
      InnerAll(adjoints[..m], ds[..m]) + Inner(adjoints[m], ds[m])
  }

  /**
   * The derivative of each operator's forward pass at `input`, applied to the
   * direction `ds`: a reference written from calculus, independent of the
   * backward code. The derivative of exp is exp; relu's derivative is taken
   * as 0 at 0, as its mask does.
   */
  function Jvp(op: Op, input: seq<Vector>, ds: seq<Vector>, exp: real -> real): Vector
    requires ForwardSpec(op, input, exp).Ok? && ShapesMatch(input, ds)
  {
    match op
    case Add(_) => ElementwiseSum(ds, |input[0]|)
    case Exp(_) => Times(ExpVec(input[0], exp), ds[0])
    case Subtract => Minus(ds[0], ds[1])
    case Prod(_) => Plus(Times(ds[0], input[1]), Times(input[0], ds[1]))
    case ReduceSum(_) => [Total(ds[0])]
    case Dot(_) => Plus(Times(ds[0], input[1]), Times(input[0], ds[1]))
    case Relu(_) => seq(|input[0]|, i requires 0 <= i < |input[0]| => if input[0][i] > 0.0 then ds[0][i] else 0.0)
  }

  // ---------------------------------------------------------------------------
  // Arity and shapes

  /** add's forward output is the elementwise sum: entry k is the sum of the inputs' entries k. */
  lemma {:induction false} ElementwiseSumAt(xs: seq<Vector>, n: nat, k: nat)
    requires forall i :: 0 <= i < |xs| ==> |xs[i]| == n
    requires k < n
    ensures ElementwiseSum(xs, n)[k] == Total(Column(xs, k))
  {
    if xs != [] {
      var m := |xs| - 1;
      assert Column(xs, k)[..m] == Column(xs[..m], k);
      ElementwiseSumAt(xs[..m], n, k);
    }
  }

  /** A forward pass fails exactly on a wrong count of inputs or mismatched lengths, and records the arity. */
  lemma ForwardChecksShapes(op: Op, input: seq<Vector>, exp: real -> real)
    ensures ForwardSpec(op, input, exp).Ok? <==>
      match op
      case Add(_) => |input| > 0 && SameLengths(input)
      case Exp(_) => |input| == 1
      case ReduceSum(_) => |input| == 1
      case Relu(_) => |input| == 1
      case _ => |input| == 2 && |input[0]| == |input[1]|
    ensures ForwardSpec(op, input, exp).Fail? ==> ForwardSpec(op, input, exp).failure == AssertionFailed
    ensures ForwardSpec(op, input, exp).Ok? ==>
      var f := ForwardSpec(op, input, exp).value;
      SameKind(op, f.state) && GradCount(f.state) == |input|
  {
  }

  /** A backward pass returns as many adjoints as the state records and keeps that count. */
  lemma GradKeepsArity(op: Op, g: Vector)
    ensures GradSpec(op, g).Ok? ==>
      var b := GradSpec(op, g).value;
      |b.adjoints| == GradCount(op) && GradCount(b.state) == GradCount(op) && SameKind(op, b.state)
  {
  }

  /**
   * The backward contract: after a forward pass, a gradient as long as the
   * output gets one adjoint per input, each as long as that input. dot is the
   * exception (see DotRejectsOutputGradient).
   */
  lemma BackwardShapes(op: Op, input: seq<Vector>, exp: real -> real, g: Vector)
    requires ForwardSpec(op, input, exp).Ok?
    requires |g| == |ForwardSpec(op, input, exp).value.output|
    requires !op.Dot?
    ensures GradSpec(ForwardSpec(op, input, exp).value.state, g).Ok?
    ensures ShapesMatch(input, GradSpec(ForwardSpec(op, input, exp).value.state, g).value.adjoints)
  {
    var s := ForwardSpec(op, input, exp).value.state;
    var a := GradSpec(s, g).value.adjoints;
    match op {
      case Add(_) =>
        assert forall i :: 0 <= i < |a| ==> a[i] == g;
      case Exp(_) =>
      case Subtract =>
      case Prod(_) =>
      case ReduceSum(_) =>
      case Relu(_) =>
    }
  }

  /**
   * dot as coded multiplies entry by entry, so its output is as long as its
   * inputs, while its backward pass asserts a gradient of length one: unless
   * the inputs have length one, a gradient shaped like its output is refused.
   */
  lemma DotRejectsOutputGradient(input: seq<Vector>, g: Vector)
    requires DotForwardSpec(input).Ok?
    requires |g| == |DotForwardSpec(input).value.output| != 1
    ensures |DotForwardSpec(input).value.output| == |input[0]|
    ensures GradSpec(DotForwardSpec(input).value.state, g) == Fail(AssertionFailed)
  {
  }

  // ---------------------------------------------------------------------------
  // Each backward pass is the adjoint of the derivative

  lemma InnerAllOne(a: Vector, d: Vector)
    requires |a| == |d|
    ensures InnerAll([a], [d]) == Inner(a, d)
  {
    assert [a][..0] == [] && [d][..0] == [];
  }

  lemma InnerAllTwo(a: Vector, b: Vector, d: Vector, e: Vector)
    requires |a| == |d| && |b| == |e|
    ensures InnerAll([a, b], [d, e]) == Inner(a, d) + Inner(b, e)
  {
    assert [a, b][..1] == [a] && [d, e][..1] == [d];
    InnerAllOne(a, d);
  }

  lemma {:induction false} AddAdjoint(g: Vector, ds: seq<Vector>)
    requires forall i :: 0 <= i < |ds| ==> |ds[i]| == |g|
    ensures Inner(g, ElementwiseSum(ds, |g|)) == InnerAll(Copies(|ds|, g), ds)
  {
    if ds == [] {
      assert Times(g, Zeros(|g|)) == Zeros(|g|);
      TotalZeros(|g|);
    } else {
      var m := |ds| - 1;
      assert Copies(|ds|, g)[..m] == Copies(m, g);
      AddAdjoint(g, ds[..m]);
      InnerPlus(g, ElementwiseSum(ds[..m], |g|), ds[m]);
    }
  }

  lemma SubtractAdjoint(g: Vector, d0: Vector, d1: Vector)
    requires |g| == |d0| == |d1|
    ensures Inner(g, Minus(d0, d1)) == Inner(g, d0) + Inner(Neg(g), d1)
  {
    forall i | 0 <= i < |g| ensures Times(g, Minus(d0, d1))[i] == Plus(Times(g, d0), Times(Neg(g), d1))[i] {
      assert g[i] * (d0[i] - d1[i]) == g[i] * d0[i] + (-g[i]) * d1[i];
    }
    assert Times(g, Minus(d0, d1)) == Plus(Times(g, d0), Times(Neg(g), d1));
    TotalPlus(Times(g, d0), Times(Neg(g), d1));
  }

  lemma ProdAdjoint(g: Vector, x0: Vector, x1: Vector, d0: Vector, d1: Vector)
    requires |g| == |x0| == |x1| == |d0| == |d1|
    ensures Inner(g, Plus(Times(d0, x1), Times(x0, d1))) == Inner(Times(x1, g), d0) + Inner(Times(x0, g), d1)
  {
    InnerPlus(g, Times(d0, x1), Times(x0, d1));
    forall i | 0 <= i < |g|
      ensures Times(g, Times(d0, x1))[i] == Times(Times(x1, g), d0)[i]
      ensures Times(g, Times(x0, d1))[i] == Times(Times(x0, g), d1)[i]
    {
      assert g[i] * (d0[i] * x1[i]) == (x1[i] * g[i]) * d0[i];
      assert g[i] * (x0[i] * d1[i]) == (x0[i] * g[i]) * d1[i];
    }
    assert Times(g, Times(d0, x1)) == Times(Times(x1, g), d0);
    assert Times(g, Times(x0, d1)) == Times(Times(x0, g), d1);
  }

  lemma InnerSingle(a: real, b: real)
    ensures Inner([a], [b]) == a * b
  {
    var t := Times([a], [b]);
    assert |t| == 1 && t[0] == a * b;
    assert t == [a * b];
    var s := [a * b];
    assert s[..0] == [];
    assert Total(s) == Total(s[..0]) + s[0];
  }

  lemma ReduceSumAdjoint(g0: real, d: Vector)
    ensures Inner([g0], [Total(d)]) == Inner(Fill(|d|, g0), d)
  {
    ReduceSumAdjointAt(g0, Total(d), d);
  }

  /** ReduceSumAdjoint with the sum named, which keeps the proof small. */
  lemma ReduceSumAdjointAt(g0: real, t: real, d: Vector)
    requires t == Total(d)
    ensures Inner([g0], [t]) == Inner(Fill(|d|, g0), d)
  {
    InnerSingle(g0, t);
    InnerFill(g0, d);
  }

  lemma ExpAdjoint(g: Vector, e: Vector, d: Vector)
    requires |g| == |e| == |d|
    ensures Inner(g, Times(e, d)) == Inner(Times(e, g), d)
  {
    forall i | 0 <= i < |g| ensures Times(g, Times(e, d))[i] == Times(Times(e, g), d)[i] {
      assert g[i] * (e[i] * d[i]) == (e[i] * g[i]) * d[i];
    }
    assert Times(g, Times(e, d)) == Times(Times(e, g), d);
  }

  lemma ReluAdjoint(g: Vector, x: Vector, d: Vector)
    requires |g| == |x| == |d|
    ensures Inner(g, seq(|x|, i requires 0 <= i < |x| => if x[i] > 0.0 then d[i] else 0.0))
         == Inner(MaskBy(g, PositiveMask(x)), d)
  {
    var jd := seq(|x|, i requires 0 <= i < |x| => if x[i] > 0.0 then d[i] else 0.0);
    forall i | 0 <= i < |g| ensures Times(g, jd)[i] == Times(MaskBy(g, PositiveMask(x)), d)[i] { }
    assert Times(g, jd) == Times(MaskBy(g, PositiveMask(x)), d);
  }

  /**
   * For every operator but dot: after a forward pass, the backward pass maps
   * an output gradient g to adjoints a with <g, J d> == sum_i <a_i, d_i> for
   * every direction d, J the derivative of the forward pass (Jvp).
   */
  lemma GradIsAdjoint(op: Op, input: seq<Vector>, exp: real -> real, g: Vector, ds: seq<Vector>)
    requires ForwardSpec(op, input, exp).Ok?
    requires |g| == |ForwardSpec(op, input, exp).value.output|
    requires !op.Dot?
    requires ShapesMatch(input, ds)
    ensures GradSpec(ForwardSpec(op, input, exp).value.state, g).Ok?
    ensures
      var a := GradSpec(ForwardSpec(op, input, exp).value.state, g).value.adjoints;
      ShapesMatch(a, ds) && Inner(g, Jvp(op, input, ds, exp)) == InnerAll(a, ds)
  {
    BackwardShapes(op, input, exp, g);
    var a := GradSpec(ForwardSpec(op, input, exp).value.state, g).value.adjoints;
    match op {
      case Add(_) =>
        assert a == Copies(|ds|, g);
        AddAdjoint(g, ds);
      case Exp(_) =>
        ExpAdjoint(g, ExpVec(input[0], exp), ds[0]);
        InnerAllOne(a[0], ds[0]);
      case Subtract =>
        SubtractAdjoint(g, ds[0], ds[1]);
        InnerAllTwo(a[0], a[1], ds[0], ds[1]);
      case Prod(_) =>
        ProdAdjoint(g, input[0], input[1], ds[0], ds[1]);
        InnerAllTwo(a[0], a[1], ds[0], ds[1]);
      case ReduceSum(_) =>
        ReduceSumAdjoint(g[0], ds[0]);
        assert g == [g[0]];
        InnerAllOne(a[0], ds[0]);
      case Relu(_) =>
        ReluAdjoint(g, input[0], ds[0]);
        InnerAllOne(a[0], ds[0]);
    }
  }

  /** One backward pass of dot right after its forward pass. */
  lemma DotGradOnce(input: seq<Vector>, g0: real)
    requires DotForwardSpec(input).Ok?
    ensures
      var once := [Scale(g0, input[1]), Scale(g0, input[0])];
      GradSpec(DotForwardSpec(input).value.state, [g0]) == Ok(Backwarded(Dot(once), once))
  {
    assert DotForwardSpec(input).value.state == Dot(input);
    assert input[2..] == [];
    var g := [g0];
    assert g[0] == g0;
    var once := [Scale(g0, input[1]), Scale(g0, input[0])];
    assert DotGradSpec(input, g).value.adjoints == [Scale(g[0], input[1]), Scale(g[0], input[0])] + input[2..];
    assert DotGradSpec(input, g).value.adjoints == once;
    assert DotGradSpec(input, g) == Ok(Backwarded(Dot(once), once));
    assert GradSpec(Dot(input), g) == DotGradSpec(input, g);
  }

  /**
   * dot's backward pass is the adjoint of the derivative of the inner product
   * [sum_i x0_i * x1_i], not of the entrywise product its forward pass returns.
   */
  lemma DotGradIsInnerProductAdjoint(input: seq<Vector>, g0: real, ds: seq<Vector>)
    requires DotForwardSpec(input).Ok?
    requires ShapesMatch(input, ds)
    ensures GradSpec(DotForwardSpec(input).value.state, [g0]).Ok?
    ensures
      var a := GradSpec(DotForwardSpec(input).value.state, [g0]).value.adjoints;
      ShapesMatch(a, ds) &&
      g0 * (Inner(ds[0], input[1]) + Inner(input[0], ds[1])) == InnerAll(a, ds)
  {
    var a0, a1 := Scale(g0, input[1]), Scale(g0, input[0]);
    DotGradOnce(input, g0);
    var a := GradSpec(DotForwardSpec(input).value.state, [g0]).value.adjoints;
    assert a == [a0, a1];
    InnerAllTwo(a0, a1, ds[0], ds[1]);
    DotAdjoint(g0, input[0], input[1], ds[0], ds[1]);
  }

  lemma DotAdjoint(g0: real, x0: Vector, x1: Vector, d0: Vector, d1: Vector)
    requires |x0| == |x1| == |d0| == |d1|
    ensures g0 * (Inner(d0, x1) + Inner(x0, d1)) == Inner(Scale(g0, x1), d0) + Inner(Scale(g0, x0), d1)
  {
    InnerScale(g0, x1, d0);
    InnerScale(g0, x0, d1);
    assert g0 * (Inner(d0, x1) + Inner(x0, d1)) == g0 * Inner(d0, x1) + g0 * Inner(x0, d1);
    assert Inner(x0, d1) == Inner(d1, x0) by {
      assert Times(x0, d1) == Times(d1, x0);
    }
  }

  /** A factor on one side of the pairing comes out of it. */
  lemma InnerScale(c: real, a: Vector, b: Vector)
    requires |a| == |b|
    ensures Inner(Scale(c, a), b) == c * Inner(b, a)
  {
    forall i | 0 <= i < |a| ensures Times(Scale(c, a), b)[i] == Scale(c, Times(b, a))[i] {
      assert (c * a[i]) * b[i] == c * (b[i] * a[i]);
    }
    assert Times(Scale(c, a), b) == Scale(c, Times(b, a));
    TotalScale(c, Times(b, a));
  }

  // ---------------------------------------------------------------------------
  // Caches updated in place by the backward pass

  /**
   * prod's backward pass overwrites its cache with its result, so a second
   * backward pass without a new forward pass multiplies by g once more.
   */
  lemma ProdGradTwice(input: seq<Vector>, g: Vector)
    requires ProdForwardSpec(input).Ok?
    requires |g| == |input[0]|
    ensures
      var once := GradSpec(ProdForwardSpec(input).value.state, g);
      once == Ok(Backwarded(Prod([Times(input[1], g), Times(input[0], g)]), [Times(input[1], g), Times(input[0], g)])) &&
      GradSpec(once.value.state, g).Ok? &&
      GradSpec(once.value.state, g).value.adjoints == [Times(Times(input[0], g), g), Times(Times(input[1], g), g)]
  {
    assert input[2..] == [];
    assert ProdForwardSpec(input).value.state == Prod(input);
    var once := [Times(input[1], g), Times(input[0], g)];
    assert ProdGradSpec(input, g).value.adjoints == once;
    assert GradSpec(Prod(input), g) == Ok(Backwarded(Prod(once), once));
    assert once[2..] == [];
    assert ProdGradSpec(once, g).value.adjoints == [Times(once[1], g), Times(once[0], g)];
  }

  /** dot's backward pass swaps and scales its cache the same way. */
  lemma DotGradTwice(input: seq<Vector>, g0: real)
    requires DotForwardSpec(input).Ok?
    ensures
      var once := GradSpec(DotForwardSpec(input).value.state, [g0]);
      once.Ok? && once.value.adjoints == [Scale(g0, input[1]), Scale(g0, input[0])] &&
      GradSpec(once.value.state, [g0]).Ok? &&
      GradSpec(once.value.state, [g0]).value.adjoints == [Scale(g0, Scale(g0, input[0])), Scale(g0, Scale(g0, input[1]))]
  {
    var once := [Scale(g0, input[1]), Scale(g0, input[0])];
    DotGradOnce(input, g0);
    assert DotForwardSpec(once).Ok?;
    assert DotForwardSpec(once).value.state == Dot(once);
    DotGradOnce(once, g0);
    assert GradSpec(DotForwardSpec(input).value.state, [g0]).value.state == Dot(once);
  }

  /** relu's backward pass clears the mask: a second one on a non-empty gradient reads past its end. */
  lemma ReluGradClearsMask(mask: seq<bool>, g: Vector, h: Vector)
    requires ReluGradSpec(mask, g).Ok?
    requires |h| > 0
    ensures ReluGradSpec(mask, g).value.state == Relu([])
    ensures GradSpec(ReluGradSpec(mask, g).value.state, h) == Fail(Undefined)
  {
  }

  /** exp's backward pass leaves its cache alone, so repeating it repeats the result. */
  lemma ExpGradRepeats(computedOutput: Vector, g: Vector)
    requires ExpGradSpec(computedOutput, g).Ok?
    ensures GradSpec(ExpGradSpec(computedOutput, g).value.state, g) == ExpGradSpec(computedOutput, g)
  {
  }

  /** `add_op` stores `new T`: the state of the operator it is handed never matters. */
  lemma FreshIgnoresState(a: Op, b: Op, input: seq<Vector>, exp: real -> real)
    requires SameKind(a, b)
    ensures Fresh(a) == Fresh(b)
    ensures ForwardSpec(a, input, exp) == ForwardSpec(b, input, exp)
  {
  }
}

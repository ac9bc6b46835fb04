/**
 * The operator catalogue of nnops.h. Each C++ operator class is a variant of
 * `Op` carrying the fields that class caches between its forward pass
 * (`operator()`) and its backward pass (`grad`). A pass takes the operator's
 * current state and returns its next state together with its result; every
 * `assert` of the source, and every read the source makes past the end of a
 * cache or of a field no forward pass has set, ends the pass with `Fail`.
 */
module Ops {
  import opened Wrappers
  import opened Vectors

  /** The state of one operator object. */
  datatype Op =
    | Add(fanIn: Option<nat>)            // add::fan_in, unset until the first forward pass
    | Exp(computedOutput: Vector)        // exp::computed_output
    | Subtract                           // subtract keeps no state
    | Prod(inputCache: seq<Vector>)      // prod::input_cache
    | ReduceSum(dimensions: Option<nat>) // reduce_sum::dimensions, unset until the first forward pass
    | Dot(cachedInput: seq<Vector>)      // dot::cached_input
    | Relu(mask: seq<bool>)              // relu::mask

  /** A forward pass that succeeded: the operator's new state and the output vector. */
  datatype Forwarded = Forwarded(state: Op, output: Vector)

  /** A backward pass that succeeded: the operator's new state and one adjoint per input. */
  datatype Backwarded = Backwarded(state: Op, adjoints: seq<Vector>)

  predicate SameKind(a: Op, b: Op)
  {
    match a
    case Add(_) => b.Add?
    case Exp(_) => b.Exp?
    case Subtract => b.Subtract?
    case Prod(_) => b.Prod?
    case ReduceSum(_) => b.ReduceSum?
    case Dot(_) => b.Dot?
    case Relu(_) => b.Relu?
  }

  /** `new T`: a default-constructed operator of the same class as `t`. */
  function Fresh(t: Op): (r: Op)
    ensures SameKind(t, r)
  {
    match t
    case Add(_) => Add(None)
    case Exp(_) => Exp([])
    case Subtract => Subtract
    case Prod(_) => Prod([])
    case ReduceSum(_) => ReduceSum(None)
    case Dot(_) => Dot([])
    case Relu(_) => Relu([])
  }

  /** The number of adjoints a successful backward pass from this state returns. */
  function GradCount(op: Op): nat
  {
    match op
    case Add(fanIn) => if fanIn.Some? then fanIn.value else 0
    case Exp(_) => 1
    case Subtract => 2
    case Prod(cache) => |cache|
    case ReduceSum(_) => 1
    case Dot(cache) => |cache|
    case Relu(_) => 1
  }

  // ---------------------------------------------------------------------------
  // Specification of each pass, class by class

  predicate SameLengths(input: seq<Vector>)
  {
    forall i :: 0 <= i < |input| ==> |input[i]| == |input[0]|
  }

  /** Sum of a list of vectors of length n, added to zeros from the first to the last. */
  function ElementwiseSum(xs: seq<Vector>, n: nat): (r: Vector)
    requires forall i :: 0 <= i < |xs| ==> |xs[i]| == n
    ensures |r| == n
  {
    if xs == [] then Zeros(n) else Plus(ElementwiseSum(xs[..|xs| - 1], n), xs[|xs| - 1])
  }

  /** The k-th entries of a list of vectors. */
  function Column(xs: seq<Vector>, k: nat): Vector
    requires forall i :: 0 <= i < |xs| ==> k < |xs[i]|
  {
    seq(|xs|, i requires 0 <= i < |xs| => xs[i][k])
  }

  function ExpVec(x: Vector, exp: real -> real): Vector
  {
    seq(|x|, i requires 0 <= i < |x| => exp(x[i]))
  }

  /** std::max(x, 0.0) entry by entry. */
  function ReluVec(x: Vector): Vector
  {
    seq(|x|, i requires 0 <= i < |x| => if x[i] < 0.0 then 0.0 else x[i])
  }

  /** relu's mask after a forward pass: true where the output is positive. */
  function PositiveMask(x: Vector): seq<bool>
  {
    seq(|x|, i requires 0 <= i < |x| => x[i] > 0.0)
  }

  /** g[i] * mask[i], the boolean read as 1.0 or 0.0. */
  function MaskBy(g: Vector, mask: seq<bool>): Vector
    requires |g| <= |mask|
  {
    seq(|g|, i requires 0 <= i < |g| => g[i] * if mask[i] then 1.0 else 0.0)
  }

  /** `std::vector<std::vector<double>>(k, g)`. */
  function Copies(k: nat, g: Vector): seq<Vector>
  {
    seq(k, _ => g)
  }

  function AddForwardSpec(input: seq<Vector>): Result<Forwarded>
  {
    if |input| == 0 || !SameLengths(input) then Fail(AssertionFailed)
    else Ok(Forwarded(Add(Some(|input|)), ElementwiseSum(input, |input[0]|)))
  }

  function AddGradSpec(fanIn: Option<nat>, g: Vector): Result<Backwarded>
  {
    if fanIn.None? then Fail(Undefined)
    else Ok(Backwarded(Add(fanIn), Copies(fanIn.value, g)))
  }

  function ExpForwardSpec(input: seq<Vector>, exp: real -> real): Result<Forwarded>
  {
    if |input| != 1 then Fail(AssertionFailed)
    else Ok(Forwarded(Exp(ExpVec(input[0], exp)), ExpVec(input[0], exp)))
  }

  function ExpGradSpec(computedOutput: Vector, g: Vector): Result<Backwarded>
  {
    if |computedOutput| != |g| then Fail(AssertionFailed)
    else Ok(Backwarded(Exp(computedOutput), [Times(computedOutput, g)]))
  }

  function SubtractForwardSpec(input: seq<Vector>): Result<Forwarded>
  {
    if |input| != 2 || |input[0]| != |input[1]| then Fail(AssertionFailed)
    else Ok(Forwarded(Subtract, Minus(input[0], input[1])))
  }

  function SubtractGradSpec(g: Vector): Result<Backwarded>
  {
    Ok(Backwarded(Subtract, [g, Neg(g)]))
  }

  function ProdForwardSpec(input: seq<Vector>): Result<Forwarded>
  {
    if |input| != 2 || |input[0]| != |input[1]| then Fail(AssertionFailed)
    else Ok(Forwarded(Prod(input), Times(input[0], input[1])))
  }

  /** The cache is swapped and multiplied by g in place, then returned: it is both the result and the next state. */
  function ProdGradSpec(cache: seq<Vector>, g: Vector): Result<Backwarded>
  {
    if |cache| == 0 then Fail(Undefined)
    else if |g| != |cache[0]| then Fail(AssertionFailed)
    else if |cache| == 1 then Fail(Undefined)
    else if |cache[1]| != |g| then Fail(AssertionFailed)
    else
      var adjoints := [Times(cache[1], g), Times(cache[0], g)] + cache[2..];
      Ok(Backwarded(Prod(adjoints), adjoints))
  }

  function ReduceSumForwardSpec(input: seq<Vector>): Result<Forwarded>
  {
    if |input| != 1 then Fail(AssertionFailed)
    else Ok(Forwarded(ReduceSum(Some(|input[0]|)), [Total(input[0])]))
  }

  function ReduceSumGradSpec(dimensions: Option<nat>, g: Vector): Result<Backwarded>
  {
    if |g| != 1 then Fail(AssertionFailed)
    else if dimensions.None? then Fail(Undefined)
    else Ok(Backwarded(ReduceSum(dimensions), [Fill(dimensions.value, g[0])]))
  }

  function DotForwardSpec(input: seq<Vector>): Result<Forwarded>
  {
    if |input| != 2 || |input[0]| != |input[1]| then Fail(AssertionFailed)
    else Ok(Forwarded(Dot(input), Times(input[0], input[1])))
  }

  function DotGradSpec(cache: seq<Vector>, g: Vector): Result<Backwarded>
  {
    if |g| != 1 then Fail(AssertionFailed)
    else if |cache| < 2 then Fail(Undefined)
    else if |cache[0]| != |cache[1]| then Fail(AssertionFailed)
    else
      var adjoints := [Scale(g[0], cache[1]), Scale(g[0], cache[0])] + cache[2..];
      Ok(Backwarded(Dot(adjoints), adjoints))
  }

  function ReluForwardSpec(input: seq<Vector>): Result<Forwarded>
  {
    if |input| != 1 then Fail(AssertionFailed)
    else Ok(Forwarded(Relu(PositiveMask(input[0])), ReluVec(input[0])))
  }

  function ReluGradSpec(mask: seq<bool>, g: Vector): Result<Backwarded>
  {
    if |g| > |mask| then Fail(Undefined)
    else Ok(Backwarded(Relu([]), [MaskBy(g, mask)]))
  }

  /** `op::operator()`, dispatched on the class. The state before the pass does not matter. */
  function ForwardSpec(op: Op, input: seq<Vector>, exp: real -> real): Result<Forwarded>
  {
    match op
    case Add(_) => AddForwardSpec(input)
    case Exp(_) => ExpForwardSpec(input, exp)
    case Subtract => SubtractForwardSpec(input)
    case Prod(_) => ProdForwardSpec(input)
    case ReduceSum(_) => ReduceSumForwardSpec(input)
    case Dot(_) => DotForwardSpec(input)
    case Relu(_) => ReluForwardSpec(input)
  }

  /** `op::grad`, dispatched on the class. */
  function GradSpec(op: Op, g: Vector): Result<Backwarded>
  {
    match op
    case Add(fanIn) => AddGradSpec(fanIn, g)
    case Exp(computedOutput) => ExpGradSpec(computedOutput, g)
    case Subtract => SubtractGradSpec(g)
    case Prod(cache) => ProdGradSpec(cache, g)
    case ReduceSum(dimensions) => ReduceSumGradSpec(dimensions, g)
    case Dot(cache) => DotGradSpec(cache, g)
    case Relu(mask) => ReluGradSpec(mask, g)
  }

  // ---------------------------------------------------------------------------
  // The passes as the source runs them

  /** add::operator(): start from zeros and add every input in turn; record the fan-in. */
  method AddForward(input: seq<Vector>) returns (r: Result<Forwarded>)
    ensures r == AddForwardSpec(input)
  {
    if |input| == 0 {
      return Fail(AssertionFailed);
    }
    var size := |input[0]|;
    var result := Zeros(size);
    var i := 0;
    while i < |input|
      invariant 0 <= i <= |input|
      invariant forall k :: 0 <= k < i ==> |input[k]| == size
      invariant result == ElementwiseSum(input[..i], size)
    {
      if |input[i]| != size {
        return Fail(AssertionFailed);
      }
      assert input[..i + 1][..i] == input[..i];
      result := AddToVector(result, input[i]);
      i := i + 1;
    }
    assert input[..i] == input;
    r := Ok(Forwarded(Add(Some(|input|)), result));
  }

  /** add::grad: fan_in copies of the output gradient. */
  method AddGrad(fanIn: Option<nat>, g: Vector) returns (r: Result<Backwarded>)
    ensures r == AddGradSpec(fanIn, g)
  {
    if fanIn.None? {
      return Fail(Undefined);
    }
    r := Ok(Backwarded(Add(fanIn), seq(fanIn.value, _ => g)));
  }

  /** exp::exp_vector: every entry replaced by its exponential. */
  method ExpVector(x: Vector, exp: real -> real) returns (r: Vector)
    ensures |r| == |x|
    ensures forall i :: 0 <= i < |x| ==> r[i] == exp(x[i])
  {
    r := x;
    var i := 0;
    while i < |r|
      invariant 0 <= i <= |r| == |x|
      invariant forall k :: 0 <= k < i ==> r[k] == exp(x[k])
      invariant forall k :: i <= k < |r| ==> r[k] == x[k]
    {
      r := r[i := exp(r[i])];
      i := i + 1;
    }
  }

  /** exp::operator(): one input; the output is cached for the backward pass. */
  method ExpForward(input: seq<Vector>, exp: real -> real) returns (r: Result<Forwarded>)
    ensures r == ExpForwardSpec(input, exp)
  {
    if |input| != 1 {
      return Fail(AssertionFailed);
    }
    var computedOutput := ExpVector(input[0], exp);
    assert computedOutput == ExpVec(input[0], exp);
    r := Ok(Forwarded(Exp(computedOutput), computedOutput));
  }

  /** exp::grad: the cached output times the output gradient. */
  method ExpGrad(computedOutput: Vector, g: Vector) returns (r: Result<Backwarded>)
    ensures r == ExpGradSpec(computedOutput, g)
  {
    if |computedOutput| != |g| {
      return Fail(AssertionFailed);
    }
    var adjoint := Hadamard(computedOutput, g);
    assert forall k :: 0 <= k < |adjoint| ==> adjoint[k] == Times(computedOutput, g)[k];
    assert adjoint == Times(computedOutput, g);
    r := Ok(Backwarded(Exp(computedOutput), [adjoint]));
  }

  /** subtract::negate. */
  method Negate(x: Vector) returns (r: Vector)
    ensures |r| == |x|
    ensures forall i :: 0 <= i < |x| ==> r[i] == -x[i]
  {
    r := x;
    var i := 0;
    while i < |r|
      invariant 0 <= i <= |r| == |x|
      invariant forall k :: 0 <= k < i ==> r[k] == -x[k]
      invariant forall k :: i <= k < |r| ==> r[k] == x[k]
    {
      r := r[i := -r[i]];
      i := i + 1;
    }
  }

  /** subtract::operator(): input0 - input1. */
  method SubtractForward(input: seq<Vector>) returns (r: Result<Forwarded>)
    ensures r == SubtractForwardSpec(input)
  {
    if |input| != 2 || |input[0]| != |input[1]| {
      return Fail(AssertionFailed);
    }
    var result := SubtractFromVector(input[0], input[1]);
    assert result == Minus(input[0], input[1]);
    r := Ok(Forwarded(Subtract, result));
  }

  /** subtract::grad: the output gradient and its negation. */
  method SubtractGrad(g: Vector) returns (r: Result<Backwarded>)
    ensures r == SubtractGradSpec(g)
  {
    var negated := Negate(g);
    assert negated == Neg(g);
    r := Ok(Backwarded(Subtract, [g, negated]));
  }

  /** prod::operator(): elementwise product; the inputs are cached. */
  method ProdForward(input: seq<Vector>) returns (r: Result<Forwarded>)
    ensures r == ProdForwardSpec(input)
  {
    if |input| != 2 || |input[0]| != |input[1]| {
      return Fail(AssertionFailed);
    }
    var result := Hadamard(input[0], input[1]);
    assert forall k :: 0 <= k < |result| ==> result[k] == Times(input[0], input[1])[k];
    assert result == Times(input[0], input[1]);
    r := Ok(Forwarded(Prod(input), result));
  }

  /** prod::grad: swap the two cached inputs, multiply each by g in place, return the cache. */
  method ProdGrad(inputCache: seq<Vector>, g: Vector) returns (r: Result<Backwarded>)
    ensures r == ProdGradSpec(inputCache, g)
  {
    if |inputCache| == 0 {
      return Fail(Undefined);
    }
    if |g| != |inputCache[0]| {
      return Fail(AssertionFailed);
    }
    if |inputCache| == 1 {
      return Fail(Undefined);
    }
    var cache := inputCache;
    cache := cache[0 := cache[1]][1 := cache[0]];
    if |cache[0]| != |g| {
      return Fail(AssertionFailed);
    }
    var first := Hadamard(cache[0], g);
    assert forall k :: 0 <= k < |first| ==> first[k] == Times(inputCache[1], g)[k];
    assert first == Times(inputCache[1], g);
    cache := cache[0 := first];
    var second := Hadamard(cache[1], g);
    assert forall k :: 0 <= k < |second| ==> second[k] == Times(inputCache[0], g)[k];
    assert second == Times(inputCache[0], g);
    cache := cache[1 := second];
    assert cache == [Times(inputCache[1], g), Times(inputCache[0], g)] + inputCache[2..];
    r := Ok(Backwarded(Prod(cache), cache));
  }

  /** reduce_sum::operator(): a one-entry vector holding the sum; the input length is recorded. */
  method ReduceSumForward(input: seq<Vector>) returns (r: Result<Forwarded>)
    ensures r == ReduceSumForwardSpec(input)
  {
    if |input| != 1 {
      return Fail(AssertionFailed);
    }
    var output := [0.0];
    var x := input[0];
    var i := 0;
    while i < |x|
      invariant 0 <= i <= |x|
      invariant output == [Total(x[..i])]
    {
      assert x[..i + 1][..i] == x[..i];
      output := output[0 := output[0] + x[i]];
      i := i + 1;
    }
    assert x[..i] == x;
    r := Ok(Forwarded(ReduceSum(Some(|x|)), output));
  }

  /** reduce_sum::grad: `dimensions` copies of the single gradient entry. */
  method ReduceSumGrad(dimensions: Option<nat>, g: Vector) returns (r: Result<Backwarded>)
    ensures r == ReduceSumGradSpec(dimensions, g)
  {
    if |g| != 1 {
      return Fail(AssertionFailed);
    }
    if dimensions.None? {
      return Fail(Undefined);
    }
    r := Ok(Backwarded(ReduceSum(dimensions), [Fill(dimensions.value, g[0])]));
  }

  /** dot::operator(): the inputs are cached and multiplied entry by entry (the output keeps the input length). */
  method DotForward(input: seq<Vector>) returns (r: Result<Forwarded>)
    ensures r == DotForwardSpec(input)
  {
    if |input| != 2 || |input[0]| != |input[1]| {
      return Fail(AssertionFailed);
    }
    var result := input[0];
    var i := 0;
    while i < |input[0]|
      invariant 0 <= i <= |input[0]| == |result|
      invariant forall k :: 0 <= k < i ==> result[k] == input[0][k] * input[1][k]
      invariant forall k :: i <= k < |result| ==> result[k] == input[0][k]
    {
      result := result[i := result[i] * input[1][i]];
      i := i + 1;
    }
    assert forall k :: 0 <= k < |result| ==> result[k] == Times(input[0], input[1])[k];
    assert result == Times(input[0], input[1]);
    r := Ok(Forwarded(Dot(input), result));
  }

  /** dot::grad: swap the cached inputs and scale both by the single gradient entry, in place. */
  method DotGrad(cachedInput: seq<Vector>, g: Vector) returns (r: Result<Backwarded>)
    ensures r == DotGradSpec(cachedInput, g)
  {
    if |g| != 1 {
      return Fail(AssertionFailed);
    }
    if |cachedInput| < 2 {
      return Fail(Undefined);
    }
    var cache := cachedInput;
    cache := cache[0 := cache[1]][1 := cache[0]];
    var scaleValue := Fill(|cache[0]|, g[0]);
    var first := Hadamard(cache[0], scaleValue);
    assert forall k :: 0 <= k < |first| ==> first[k] == Scale(g[0], cachedInput[1])[k];
    assert first == Scale(g[0], cachedInput[1]);
    cache := cache[0 := first];
    if |cache[1]| != |scaleValue| {
      return Fail(AssertionFailed);
    }
    var second := Hadamard(cache[1], scaleValue);
    assert forall k :: 0 <= k < |second| ==> second[k] == Scale(g[0], cachedInput[0])[k];
    assert second == Scale(g[0], cachedInput[0]);
    cache := cache[1 := second];
    assert cache == [Scale(g[0], cachedInput[1]), Scale(g[0], cachedInput[0])] + cachedInput[2..];
    r := Ok(Backwarded(Dot(cache), cache));
  }

  /** relu::operator(): clamp negatives to zero and rebuild the mask entry by entry. */
  method ReluForward(input: seq<Vector>) returns (r: Result<Forwarded>)
    ensures r == ReluForwardSpec(input)
  {
    if |input| != 1 {
      return Fail(AssertionFailed);
    }
    var mask: seq<bool> := [];
    var result := input[0];
    var i := 0;
    while i < |result|
      invariant 0 <= i <= |result| == |input[0]|
      invariant mask == PositiveMask(input[0][..i])
      invariant forall k :: 0 <= k < i ==> result[k] == ReluVec(input[0])[k]
      invariant forall k :: i <= k < |result| ==> result[k] == input[0][k]
    {
      var clamped := if result[i] < 0.0 then 0.0 else result[i];
      result := result[i := clamped];
      mask := mask + [clamped > 0.0];
      i := i + 1;
    }
    assert input[0][..i] == input[0];
    assert result == ReluVec(input[0]);
    r := Ok(Forwarded(Relu(mask), result));
  }

  /** relu::grad: the output gradient times the mask; the mask is cleared afterwards. */
  method ReluGrad(mask: seq<bool>, g: Vector) returns (r: Result<Backwarded>)
    ensures r == ReluGradSpec(mask, g)
  {
    var result := g;
    var i := 0;
    while i < |g|
      invariant 0 <= i <= |g| == |result|
      invariant i <= |mask|
      invariant forall k :: 0 <= k < i ==> result[k] == g[k] * if mask[k] then 1.0 else 0.0
      invariant forall k :: i <= k < |result| ==> result[k] == g[k]
    {
      if i >= |mask| {
        return Fail(Undefined);
      }
      result := result[i := result[i] * if mask[i] then 1.0 else 0.0];
      i := i + 1;
    }
    assert result == MaskBy(g, mask);
    r := Ok(Backwarded(Relu([]), [result]));
  }

  /** The virtual `operator()` of `op`. */
  method Forward(op: Op, input: seq<Vector>, exp: real -> real) returns (r: Result<Forwarded>)
    ensures r == ForwardSpec(op, input, exp)
  {
    match op {
      case Add(_) => r := AddForward(input);
      case Exp(_) => r := ExpForward(input, exp);
      case Subtract => r := SubtractForward(input);
      case Prod(_) => r := ProdForward(input);
      case ReduceSum(_) => r := ReduceSumForward(input);
      case Dot(_) => r := DotForward(input);
      case Relu(_) => r := ReluForward(input);
    }
  }

  /** The virtual `grad` of `op`. */
  method Grad(op: Op, g: Vector) returns (r: Result<Backwarded>)
    ensures r == GradSpec(op, g)
  {
    match op {
      case Add(fanIn) => r := AddGrad(fanIn, g);
      case Exp(computedOutput) => r := ExpGrad(computedOutput, g);
      case Subtract => r := SubtractGrad(g);
      case Prod(cache) => r := ProdGrad(cache, g);
      case ReduceSum(dimensions) => r := ReduceSumGrad(dimensions, g);
      case Dot(cache) => r := DotGrad(cache, g);
      case Relu(mask) => r := ReluGrad(mask, g);
    }
  }
}

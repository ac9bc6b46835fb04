# A verified model of a small reverse-mode autograd engine

The engine builds a computation graph of vector operations as they run.
It then computes the gradient of one node with respect to any list of
nodes. Adjoints are sent backwards through the graph, one operator at a
time. The model covers three parts:

- **The graph.** A graph owns `var` nodes and the `op` objects that produced
  them. `add_op` appends one operator and one derived node. The node's value
  is computed once, by the operator's forward pass on its inputs' values.
  `clear` and the destructor release both lists.
- **The gradient scheduler.** `find_outdegrees` walks breadth-first from the
  target. It counts every input edge of every node the target depends on.
  `compute_gradients` then runs a Kahn-style pass in reverse topological
  order:
  - it seeds the target with `[1.0]`;
  - it runs each derived node's `grad` once all its consumers have contributed;
  - it accumulates each adjoint into the input's gradient with `add_to_vector`;
  - it queues an input when its counter reaches zero;
  - it reads off the gradient of each requested node.
- **The operator catalogue.** `add`, `exp`, `subtract`, `prod`, `reduce_sum`,
  `dot` and `relu`. Each operator caches state between its forward pass and
  its backward pass. The helpers `add_to_vector`, `subtract_from_vector` and
  `hadamard` update their first argument in place.

How the model represents them:

- **Vectors** are `seq<real>`.
- **Pointers** are indices into an arena: the `nodes` sequence of
  `Engine.Graph`. A handle (`var::iterator`) is an `Option<nat>`, where
  `None` is the null pointer.
- **Each operator class** is a variant of `Ops.Op` carrying its cached
  fields. A forward or backward pass takes the old state and returns the new
  state with its result. Each pass has a specification function
  (`Ops.AddForwardSpec`, …) and a method with the source's loops, proved equal
  to it.
- **`graph` is the class `Engine.Graph`.** Its fields `nodes`, `varList` and
  `opList` are updated by its methods.
- **Failures.** The source's `assert`s become `Fail(AssertionFailed)`. A read
  past the end of a container, or of a field no forward pass has set, is
  undefined behaviour in C++. It becomes `Fail(Undefined)`.
- **Leaves** are created by the client, not by `add_op`. They are in `nodes`
  but not in `var_list`, so `clear` does not release them.

The scheduler's specification rests on a ghost log of the nodes taken off
the queue. Each log entry records the gradient the node held and the
adjoints its operator returned. The main results:

- `compute_gradients` takes off each node the target depends on exactly once.
- A node is taken off only after every node that consumes it.
- Each logged step is the node's operator's backward pass.
- Each node's final gradient is its seed with the adjoints of all its
  consumer edges accumulated, in processing order.
- The number of those adjoints equals the node's number of consumer edges.
  That is the count `find_outdegrees` computes.

Three behaviours of the code differ from what a reverse-mode autograd
engine is usually expected to return. The model follows the code:

- **Unreached node.** A requested node the target does not depend on gets
  the empty vector, which is what `unordered_map::operator[]`
  default-constructs (graph.cpp:72-73). A zero vector of the node's length
  would be the usual answer.
- **Target gradient.** The target is seeded with `[1.0]` whatever its
  length (graph.cpp:49). A vector of ones of the target's length would be
  the usual seed.
- **`dot` forward.** It returns the entrywise product, of the inputs'
  length, rather than a scalar, while its backward pass demands a gradient
  of length one (nnops.h:156-175).

## Model

| member | source | states |
|---|---|---|
| Vectors.AddToVector | nnops.h:5-9 | for equal lengths, every entry of x gains the matching entry of y and the length is kept |
| Vectors.SubtractFromVector | nnops.h:10-14 | for equal lengths, every entry of a loses the matching entry of b and the length is kept |
| Vectors.Hadamard | nnops.h:15-19 | for equal lengths, every entry of x is multiplied by the matching entry of y and the length is kept |
| Ops.Fresh | neuron.h:84 | `new T` yields an operator of the same class as the argument, in its default-constructed state |
| Ops.AddForward | nnops.h:29-39 | fails the assertion on no inputs or inputs of different lengths; otherwise returns their elementwise sum starting from zeros, and records fan_in = number of inputs |
| Ops.AddGrad | nnops.h:41-43 | fan_in copies of the output gradient; undefined when no forward pass has set fan_in |
| Ops.ExpVector | nnops.h:51-54 | every entry is replaced by its exponential, the length is kept |
| Ops.ExpForward | nnops.h:59-64 | exactly one input, else the assertion fails; the output is exp of each entry and is cached |
| Ops.ExpGrad | nnops.h:66-71 | the single adjoint is the cached output times the gradient; a length mismatch fails hadamard's assertion; the cache is kept |
| Ops.Negate | nnops.h:77-80 | every entry is negated, the length is kept |
| Ops.SubtractForward | nnops.h:84-89 | two inputs of equal length, else the assertion fails; returns input0 - input1 |
| Ops.SubtractGrad | nnops.h:91-95 | adjoints (g, -g) |
| Ops.ProdForward | nnops.h:105-114 | two inputs of equal length, else the assertion fails; returns their entrywise product and caches both inputs |
| Ops.ProdGrad | nnops.h:116-125 | swaps the cached inputs and multiplies each by g, giving (g*x1, g*x0); the cache becomes that result; a gradient of the wrong length fails the assertion, an unset cache is undefined |
| Ops.ReduceSumForward | nnops.h:135-142 | one input, else the assertion fails; returns [sum of its entries] and records its length |
| Ops.ReduceSumGrad | nnops.h:144-147 | a gradient of length 1, else the assertion fails; returns `dimensions` copies of g[0]; undefined before a forward pass |
| Ops.DotForward | nnops.h:156-166 | two inputs of equal length, else an assertion fails; caches them and returns their entrywise product, of the input length |
| Ops.DotGrad | nnops.h:168-175 | a gradient of length 1, else the assertion fails; returns (g0*x1, g0*x0), which also become the cache |
| Ops.ReluForward | nnops.h:185-195 | one input, else the assertion fails; returns max(x, 0) entry by entry and rebuilds the mask as "output > 0" |
| Ops.ReluGrad | nnops.h:197-203 | the gradient times the mask, then the mask is cleared; a gradient longer than the mask reads past its end (undefined) |
| Ops.Forward | neuron.h:16 | the virtual forward pass is that of the operator's class |
| Ops.Grad | neuron.h:17 | the virtual backward pass is that of the operator's class |
| OpLaws.ElementwiseSumAt | nnops.h:29-39 | entry k of add's output is the sum of the inputs' entries k |
| OpLaws.ForwardChecksShapes | nnops.h:29-195 | a forward pass succeeds exactly when the input count and lengths are right; it fails only by assertion; on success it keeps the class and records one adjoint per input |
| OpLaws.GradKeepsArity | nnops.h:41-203 | a successful backward pass returns as many adjoints as the state records, and keeps the class and that count |
| OpLaws.BackwardShapes | nnops.h:41-203 | after a forward pass, every operator except dot accepts a gradient shaped like its output and returns one adjoint per input, each shaped like that input |
| OpLaws.DotRejectsOutputGradient | nnops.h:156-175 | dot's output has the inputs' length, and a gradient of that shape is refused by the backward pass unless that length is 1 |
| OpLaws.AddAdjoint | nnops.h:41-43 | copying g to every input is the adjoint of summing the inputs |
| OpLaws.SubtractAdjoint | nnops.h:91-95 | (g, -g) is the adjoint of input0 - input1 |
| OpLaws.ProdAdjoint | nnops.h:116-125 | (g*x1, g*x0) is the adjoint of the derivative of x0*x1 |
| OpLaws.ReduceSumAdjoint | nnops.h:144-147 | copies of g0 are the adjoint of summing the entries |
| OpLaws.ExpAdjoint | nnops.h:66-71 | output*g is the adjoint of the derivative of exp, which is exp |
| OpLaws.ReluAdjoint | nnops.h:197-203 | the masked gradient is the adjoint of relu's derivative (0 where the input is not positive) |
| OpLaws.GradIsAdjoint | nnops.h:41-203 | for every operator but dot, after a forward pass: <g, J d> equals the sum of <adjoint_i, d_i> for every direction d, where J is the derivative of the forward pass written independently of the backward code |
| OpLaws.DotGradOnce | nnops.h:168-175 | right after a forward pass, dot's backward pass returns (g0*x1, g0*x0) and caches it |
| OpLaws.DotGradIsInnerProductAdjoint | nnops.h:156-175 | dot's backward pass is the adjoint of the derivative of the scalar inner product of its inputs, not of the entrywise product its forward pass returns |
| OpLaws.DotAdjoint | nnops.h:168-175 | g0 times the derivative of the inner product in direction (d0, d1) equals <g0*x1, d0> + <g0*x0, d1> |
| OpLaws.ProdGradTwice | nnops.h:116-125 | the cache is overwritten in place, so a second backward pass without a new forward pass multiplies by g once more and swaps back |
| OpLaws.DotGradTwice | nnops.h:168-175 | likewise for dot: a second pass scales by g0 again and swaps back |
| OpLaws.ReluGradClearsMask | nnops.h:197-203 | the backward pass empties the mask, so a second one on a non-empty gradient reads past its end |
| OpLaws.ExpGradRepeats | nnops.h:66-71 | exp's backward pass keeps its cache, so repeating it gives the same result |
| OpLaws.FreshIgnoresState | neuron.h:83-85 | `add_op` ignores the state of the operator it is handed: operators of the same class give the same stored operator and the same forward result |
| Neuron.HandleIdentity | neuron.h:98-102 | handles are equal exactly when they refer to the same node, and handles to the same node hash alike |
| Neuron.ReferencesOf | neuron.h:37-39 | one reference per incoming handle, in order |
| Neuron.References | neuron.h:37-39 | the constructor's loop collects exactly the references of the incoming handles, in order |
| Neuron.Values | var.cpp:3-10 | succeeds exactly when no pointer is null, failing the assertion otherwise; on success, one value per pointer, in order, each that node's value |
| Neuron.Dereference | var.cpp:3-10 | `dereference_reference_vec`'s loop returns exactly Values: the values in pointer order, or the assertion failure at a null pointer; the nodes are only read |
| Arena.Reach | graph.cpp:3-24 | the nodes the target depends on hold the target and lie at or below it in the arena |
| Arena.ReachClosed | graph.cpp:15-19 | every input of a reached node is reached |
| Arena.ReachConsumed | graph.cpp:15-19 | every reached node other than the target is an input of a later reached node |
| Arena.ReachLeast | graph.cpp:11-22 | any set holding the target and closed under inputs contains every reached node: the walk can stop once the queue is empty |
| Arena.TargetUnused | graph.cpp:6 | no node the target depends on takes the target as input, so its counter starts and stays at 0 |
| Arena.ReachLive | graph.cpp:43-45 | in a well-formed graph, every node a live target depends on is live |
| Arena.UsesAdd | graph.cpp:15-16 | adding a consumer adds its number of input positions holding n, repetitions included |
| Arena.UsesZero | graph.cpp:64-66 | a node has no uses in a set exactly when no node of the set takes it as input |
| Accumulation.Accumulate | graph.cpp:26-32 | succeeds exactly when the accumulator is empty or as long as b; a failure is the assertion; the result is as long as b |
| Accumulation.AccumulateEmpty | graph.cpp:27-28 | the first contribution to an empty accumulator is resized zeros plus b, which is b |
| Accumulation.AccumulateAt | graph.cpp:29-31 | a non-empty accumulator keeps its length and gains b entry by entry |
| Accumulation.FoldAppend | graph.cpp:61-63 | accumulating two runs of contributions in a row is accumulating their concatenation |
| Accumulation.FoldIsSum | graph.cpp:61-63 | from an empty gradient, contributions of one length accumulate to their elementwise sum |
| Accumulation.FoldKeepsLength | graph.cpp:29 | from a non-empty gradient, a successful accumulation met only contributions of its length and keeps that length |
| Accumulation.PicksCount | graph.cpp:61-64 | a node receives one adjoint from a consumer per input position holding it |
| Accumulation.ContribsCount | graph.cpp:61-64 | over a run that processes each node once, a node receives one adjoint per input edge from a processed node |
| Accumulation.ContribsNone | graph.cpp:61-63 | a node no processed node takes as input receives nothing |
| Engine.Graph.constructor | neuron.h:69-72 | a new graph is empty and well formed |
| Engine.Graph.Leaf | neuron.h:65 | appends a leaf with the given value, no operator and no inputs; returns a handle to it; all lists otherwise unchanged |
| Engine.Graph.MakeVar | neuron.h:35-43 | a null incoming handle fails the assertion; otherwise the node records the handles' references in order and the operator's slot, and its value is the operator's forward pass on the inputs' values, failing exactly when that pass fails |
| Engine.Graph.AddOp | neuron.h:83-87 | appends exactly one fresh operator of t's class, in its post-forward state, and one node computed by it; returns a handle to that node; earlier entries are unchanged and stay live; the graph stays well formed |
| Engine.Graph.Clear | graph.cpp:34-41 | both lists become empty; exactly the leaves stay live; the graph stays well formed |
| Engine.Graph.Dispose | graph.cpp:77-79 | the destructor clears the graph |
| Engine.Graph.FindOutdegrees | graph.cpp:3-24 | the counters cover exactly the nodes the target depends on; each counter is that node's number of (reached consumer, input position) pairs, repetitions included; the target's is 0 |
| Engine.Graph.Expand | graph.cpp:15-21 | each input position counts one use; inputs seen for the first time are visited and queued once each, behind the old queue |
| Engine.ExpandedNext | graph.cpp:15-21 | handling one more input position keeps the inner loop's invariant |
| Engine.WalkStep | graph.cpp:11-22 | expanding the head of the queue keeps the walk's invariant: the queue holds exactly the visited nodes not yet expanded, once each, and each counter counts the uses by expanded nodes |
| Engine.Graph.AddToVector | graph.cpp:26-32 | equals Accumulate: an empty accumulator is resized to zeros first, a length mismatch fails the assertion, else b is added entry by entry |
| Engine.Graph.Propagate | graph.cpp:61-67 | succeeds exactly when every input's accumulation succeeds; then each input's gradient has its adjoints added in position order; each counter loses one per position; the inputs left at zero are queued, once each, behind the old queue |
| Engine.Graph.Absorb | graph.cpp:62-66 | one position of the inner loop: the invariant extends to it, or the accumulation into that input fails its assertion |
| Engine.PropagatedNext | graph.cpp:62-66 | one more position keeps the inner loop's invariant |
| Engine.CountStep | graph.cpp:64 | decrementing the counter of position i counts one more use off, and the counter had that use left |
| Engine.QueueStep | graph.cpp:65-66 | queueing an input when its counter reaches 0 keeps the new part of the queue exact and free of repeats |
| Engine.PropagateFails | graph.cpp:63 | a failing accumulation at one position makes the whole fold of that input's contributions fail |
| Engine.Graph.Process | graph.cpp:53-67 | one round of the outer loop keeps its invariant: the head is a reached node not yet processed; a leaf passes nothing on; a derived node's backward pass is logged and its adjoints propagated; the round fails exactly when the head is stuck (its backward pass fails, or adding an adjoint into an input's gradient fails), and then no operator changes |
| Engine.Graph.Derive | graph.cpp:58-67 | a derived node's round: on success, the operator ran its backward pass on the node's gradient and keeps its new state, and the adjoints were propagated; it fails exactly when the backward pass fails or one of the accumulations into an input's gradient fails, and then the operators are unchanged |
| Engine.Graph.Drain | graph.cpp:52-68 | when the queue runs empty, the loop invariant holds with an empty queue; a failure comes from a round whose head is stuck, reached in a state that satisfies the loop invariant |
| Engine.Graph.Backpropagate | graph.cpp:46-68 | each node the target depends on is processed exactly once, after all its consumers; each final gradient is the seed with every consumer edge's adjoint accumulated, and the number of those adjoints is the node's count; unreached nodes hold nothing; the target holds [1.0]; each logged step is its operator's backward pass, and only those operators change; a failure comes from a stuck round reached by a consistent partial run, which has processed the logged nodes in order |
| Engine.Graph.ComputeGradients | graph.cpp:43-75 | for a live target: every node the target depends on is processed once, after all its consumers; each logged step received the node's fully accumulated gradient and is its operator's backward pass; each node gets one adjoint per consumer edge; the operators of unprocessed nodes are unchanged; a failure comes from a stuck round reached by a consistent partial run; plus one result per requested handle, in order: the accumulated gradient of its node, empty for a null handle or a node never reached, [1.0] for the target itself; a null target is undefined |
| Engine.Collect | graph.cpp:69-74 | one result per requested handle, in order: the gradient recorded for its node, or empty |
| Engine.Answered | graph.cpp:69-74 | what each collected gradient is: the accumulated contributions, empty for a null or unreached handle, [1.0] for the target |
| Engine.AppendKeepsWellFormed | neuron.h:83-87 | appending a derived node whose inputs are live keeps the graph well formed and every live node live |
| Engine.UpdateKeepsWellFormed | graph.cpp:58 | a backward pass that keeps the operator's adjoint count keeps the graph well formed |
| Engine.Started | graph.cpp:49-50 | seeding the target with [1.0] and queueing it establishes the outer loop's invariant: only the target has a zero counter |
| Engine.Head | graph.cpp:53-58 | the head of the queue is reached and not yet processed; its inputs are not queued and still wait for at least its uses; a derived head's operator returns one adjoint per input |
| Engine.LeafStep | graph.cpp:56-57 | a leaf taken off the queue keeps the invariant without touching gradients, counters or operators |
| Engine.DerivedStep | graph.cpp:58-67 | a derived node's backward pass and propagation keep the invariant |
| Engine.Stepped | graph.cpp:53-67 | one step keeps the scheduler's invariant (counters, queue, log, gradients) for any node |
| Engine.TakeNext | graph.cpp:53-54 | the node taken off is reached, new, not queued twice; its inputs are earlier nodes; its uses come off the counters |
| Engine.StepCounters | graph.cpp:64-66 | after a step each counter equals the node's remaining uses by unprocessed nodes, and is 0 exactly for processed or queued nodes |
| Engine.StepQueue | graph.cpp:65-66 | after a step the queue holds the old queue's rest then the freed inputs, with no repeats and no processed node |
| Engine.StepZero | graph.cpp:64-66 | after a step a counter is 0 exactly when its node is processed or queued |
| Engine.StepLog | graph.cpp:52-54 | the log extended by a step still holds each node once, each after all its consumers |
| Engine.StepGathered | graph.cpp:61-63 | after a step each gradient is its seed plus all contributions logged so far, and processed nodes keep what they held |
| Engine.StepReceived | graph.cpp:61-63 | a step never adds into a processed node's gradient, so every logged step's received gradient is still its node's gradient |
| Engine.GatheredAt | graph.cpp:61-63 | one node's gradient after a step: its earlier contributions, then the step's |
| Engine.Untouched | graph.cpp:61-63 | a node that is no input of the step keeps its gradient |
| Engine.AllDone | graph.cpp:52 | in an acyclic graph, when the queue runs empty every node the target depends on has been processed |
| Engine.Finished | graph.cpp:52-68 | the loop's final state: every reached node processed once, in order, with fully accumulated gradients |

## Left out

- main.cpp, the demo driver, is not part of this model. It prints to standard output and uses operators and call syntax not in the core files.
- IEEE double rounding: vectors hold `real`s, so every property is exact algebra.
- `std::exp` is the uninterpreted function `Engine.Graph.exp`. The only facts used are that the operator applies it entry by entry, and that its derivative is itself (in `OpLaws.Jvp`).
- Raw pointers, `new` and `delete` become arena indices. A dangling or foreign handle becomes a `Live` precondition. The `delete` loops of `clear` (graph.cpp:35-38) are modelled only as the lists becoming empty.
- The `std::hash` specialisation: the library's pointer hash is a parameter of `Neuron.Hash`. Only its dependence on the reference alone is stated.
- The leaf constructor `var(const std::vector<double>&)` and the `iterator` members (neuron.h:56-62, 65) are declared but have no body in these files. `Engine.Graph.Leaf` and datatype equality on `Neuron.Iterator` model their evident meaning.
- relu's `cached_input` field is never used by the source and is not modelled.
- Cyclic graphs cannot be built: `add_op` only takes existing nodes as inputs. Non-termination on a cycle is therefore not modelled.
- The free function `dereference_reference_vec` in var.cpp:3 and the member declared at neuron.h:33 are modelled as one method, `Neuron.Dereference`.
- Engine.Graph.AddOp: on a failed forward pass the source has already pushed the new operator, then stops at the failed assertion. The model returns the failure with the graph unchanged.
- Engine.Graph.ComputeGradients: a failure is stated as reaching a stuck round from a state that satisfies the loop invariant. No lemma says which graphs and values reach such a round, because that depends on the values each backward pass computes.
- Engine.Graph.ComputeGradients: the result is stated as the accumulated adjoints of each node's consumer edges. There is no theorem that the accumulated value is the derivative of the target's value. The per-operator adjoint laws (`OpLaws.GradIsAdjoint`) and the accumulation results are proved separately, not composed into a chain rule over the whole graph.

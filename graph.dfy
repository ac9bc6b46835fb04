/**
 * `nn::graph` (neuron.h, graph.cpp): the arena that owns the derived nodes
 * and their operators, and the reverse-mode pass that computes gradients.
 *
 * Every `var` object, leaf or derived, is an entry of `nodes`, addressed by
 * its index; `varList` and `opList` are the graph's `var_list` and
 * `op_list`. A derived node whose slot `clear` has emptied stays in `nodes`
 * as a dead record (see Arena.Live): the graph no longer owns it, and no
 * live node can reach it.
 */
module Engine {
  import opened Wrappers
  import opened Vectors
  import opened Ops
  import opened OpLaws
  import opened Neuron
  import opened Arena
  import opened Accumulation

  /** The working state of compute_gradients: accumulated gradients, remaining consumer counts, queue. */
  datatype Sched = Sched(gradients: map<nat, Vector>, outdegrees: map<nat, int>, queue: seq<nat>)

  /** No node is queued twice. */
  ghost predicate Distinct(q: seq<nat>)
  {
    forall n :: multiset(q)[n] <= 1
  }

  /** Dropping the head keeps a queue free of repeats. */
  lemma DistinctTail(q: seq<nat>)
    requires Distinct(q) && |q| > 0
    ensures Distinct(q[1..])
  {
    assert q == [q[0]] + q[1..];
    forall n ensures multiset(q[1..])[n] <= 1 {
      assert multiset(q)[n] == multiset{q[0]}[n] + multiset(q[1..])[n];
    }
  }

  /** The head of a queue free of repeats is not in its tail. */
  lemma DistinctHead(q: seq<nat>)
    requires Distinct(q) && |q| > 0
    ensures q[0] !in q[1..]
  {
    assert q == [q[0]] + q[1..];
    assert multiset(q)[q[0]] == 1 + multiset(q[1..])[q[0]] <= 1;
  }

  /** Two queues free of repeats and with no element in common concatenate to one. */
  lemma DistinctAppend(a: seq<nat>, b: seq<nat>)
    requires Distinct(a) && Distinct(b) && forall n :: n in b ==> n !in a
    ensures Distinct(a + b)
  {
    assert multiset(a + b) == multiset(a) + multiset(b);
    forall n ensures multiset(a + b)[n] <= 1 {
      if n in b { assert multiset(a)[n] == 0; }
    }
  }

  ghost function Elems(q: seq<nat>): set<nat>
  {
    set x | x in q
  }

  /** `m[k]` of an `unordered_map<var*, int>`: a missing key reads as 0. */
  function Count(m: map<nat, int>, k: nat): int
  {
    if k in m then m[k] else 0
  }

  /** `gradients[it.reference]`: a null handle, like any pointer never reached, finds the empty vector. */
  function GradientOf(gradients: map<nat, Vector>, it: Iterator): Vector
  {
    match it.reference
    case None => []
    case Some(n) => GetOr(gradients, n)
  }

  /**
   * The scheduler's counters once the nodes of done have left the queue:
   * each node of r still waits for its uses in r - done, and is in done or
   * in the queue exactly when it waits for none.
   */
  ghost predicate Counters(nodes: seq<Var>, r: set<nat>, done: set<nat>, outdegrees: map<nat, int>, q: seq<nat>)
  {
    outdegrees.Keys == r &&
    (forall n :: n in r ==> outdegrees[n] == Uses(nodes, r - done, n)) &&
    (forall n :: n in r ==> (outdegrees[n] == 0 <==> n in done || n in q)) &&
    Distinct(q) && (forall n :: n in q ==> n in r && n !in done)
  }

  /**
   * The gradients of a run so far: each node holds its seed with every
   * contribution of the logged steps accumulated, and each logged node
   * received what it holds.
   */
  ghost predicate Gathered(nodes: seq<Var>, t: nat, log: seq<Step>, gradients: map<nat, Vector>)
  {
    Logged(nodes, log) &&
    (forall n :: Fold(Seed(t, n), Contribs(nodes, log, n)) == Ok(GetOr(gradients, n))) &&
    (forall k :: 0 <= k < |log| ==> log[k].received == GetOr(gradients, log[k].node))
  }

  /** A logged step is the backward pass of its node's operator, which moved from its old state to its new. */
  ghost predicate ByOperator(before: seq<Op>, after: seq<Op>, node: Var, s: Step)
  {
    match node.operation
    case None => s.adjoints == []
    case Some(j) =>
      j < |before| && j < |after| && GradSpec(before[j], s.received) == Ok(Backwarded(after[j], s.adjoints))
  }

  /** What the inner loop of compute_gradients does to the scheduler's state when it completes. */
  ghost predicate Propagated(s: Sched, ins: seq<nat>, adj: seq<Vector>, s': Sched)
    requires |ins| == |adj|
  {
    Accumulated(s, ins, adj, s') && Counted(s, ins, s')
  }

  /** The gradients after the inner loop: each input has its adjoints accumulated, in position order. */
  ghost predicate Accumulated(s: Sched, ins: seq<nat>, adj: seq<Vector>, s': Sched)
    requires |ins| == |adj|
  {
    (forall n :: Fold(GetOr(s.gradients, n), Picks(ins, adj, n)) == Ok(GetOr(s'.gradients, n))) &&
    s'.gradients.Keys <= s.gradients.Keys + Elems(ins)
  }

  /** The counters and the queue after the inner loop: one use off per position, inputs left with none queued once each. */
  ghost predicate Counted(s: Sched, ins: seq<nat>, s': Sched)
  {
    s'.outdegrees.Keys == s.outdegrees.Keys &&
    (forall n :: n in s.outdegrees ==> s'.outdegrees[n] == s.outdegrees[n] - multiset(ins)[n]) &&
    |s'.queue| >= |s.queue| && s'.queue[..|s.queue|] == s.queue &&
    Distinct(s'.queue[|s.queue|..]) &&
    (forall n :: n in s'.queue[|s.queue|..] <==> n in ins && n in s'.outdegrees && s'.outdegrees[n] == 0)
  }

  class Graph {
    /** The exponential the `exp` operator applies (`std::exp`), left uninterpreted. */
    const exp: real -> real
    var nodes: seq<Var>
    var varList: seq<nat>
    var opList: seq<Op>

    ghost predicate Valid()
      reads this
    {
      WellFormed(nodes, varList, opList)
    }

    /** An empty graph. */
    constructor (exp: real -> real)
      ensures Valid()
      ensures this.exp == exp && nodes == [] && varList == [] && opList == []
    {
      this.exp := exp;
      nodes := [];
      varList := [];
      opList := [];
    }

    /** `var (const std::vector<double>&)`: a leaf holding v, with no operator and no inputs. */
    method Leaf(v: Vector) returns (it: Iterator)
      requires Valid()
      modifies this
      ensures Valid()
      ensures nodes == old(nodes) + [Var(v, None, [])] && varList == old(varList) && opList == old(opList)
      ensures it == Iterator(Some(|old(nodes)|))
      ensures forall h: nat :: Live(old(nodes), varList, h) ==> Live(nodes, varList, h)
    {
      nodes := nodes + [Var(v, None, [])];
      it := Iterator(Some(|nodes| - 1));
      assert forall h :: 0 <= h < |old(nodes)| ==> nodes[h] == old(nodes)[h];
      assert forall h: nat :: Live(nodes, varList, h) <==> Live(old(nodes), varList, h) || h == |old(nodes)|;
    }

    /**
     * The derived `var` constructor: record the incoming handles' references
     * as the inputs, in order, and the operator's slot; compute the value
     * once, by the operator's forward pass on the inputs' values. A null
     * handle fails the assertion of `dereference_reference_vec`.
     */
    method MakeVar(incoming: seq<Iterator>, slot: nat, op: Op) returns (r: Result<(Var, Op)>)
      requires Valid()
      requires forall i :: 0 <= i < |incoming| && incoming[i].reference.Some? ==>
        Live(nodes, varList, incoming[i].reference.value)
      ensures (exists i :: 0 <= i < |incoming| && incoming[i].reference.None?) ==> r == Fail(AssertionFailed)
      ensures (forall i :: 0 <= i < |incoming| ==> incoming[i].reference.Some?) ==>
        var ins := Referenced(incoming);
        var f := ForwardSpec(op, ValuesOf(nodes, ins), exp);
        (r.Ok? <==> f.Ok?) &&
        (r.Fail? ==> r == Fail(f.failure)) &&
        (r.Ok? ==> r.value == (Var(f.value.output, Some(slot), ins), f.value.state))
    {
      var rawIn := References(incoming);
      var values := Dereference(nodes, rawIn);
      if values.Fail? {
        return Fail(values.failure);
      }
      var ins := Referenced(incoming);
      assert values.value == ValuesOf(nodes, ins);
      var f := Forward(op, values.value, exp);
      if f.Fail? {
        return Fail(f.failure);
      }
      r := Ok((Var(f.value.output, Some(slot), ins), f.value.state));
    }

    /**
     * `add_op`: append a default-constructed operator of t's class (t itself
     * is ignored) and the node it computes, and return a handle to the node.
     */
    method AddOp(inputs: seq<Iterator>, t: Op) returns (r: Result<Iterator>)
      requires Valid()
      requires forall i :: 0 <= i < |inputs| && inputs[i].reference.Some? ==>
        Live(nodes, varList, inputs[i].reference.value)
      modifies this
      ensures Valid()
      ensures (exists i :: 0 <= i < |inputs| && inputs[i].reference.None?) ==> r == Fail(AssertionFailed)
      ensures (forall i :: 0 <= i < |inputs| ==> inputs[i].reference.Some?) ==>
        var ins := Referenced(inputs);
        var f := ForwardSpec(Fresh(t), ValuesOf(old(nodes), ins), exp);
        (r.Ok? <==> f.Ok?) &&
        (r.Ok? ==>
          nodes == old(nodes) + [Var(f.value.output, Some(|old(opList)|), ins)] &&
          opList == old(opList) + [f.value.state] &&
          varList == old(varList) + [|old(nodes)|] &&
          r.value == Iterator(Some(|old(nodes)|)))
      ensures r.Fail? ==> nodes == old(nodes) && varList == old(varList) && opList == old(opList)
      ensures forall h: nat :: Live(old(nodes), old(varList), h) ==> Live(nodes, varList, h)
    {
      var made := MakeVar(inputs, |opList|, Fresh(t));
      if made.Fail? {
        return Fail(made.failure);
      }
      ghost var ins := Referenced(inputs);
      ghost var f := ForwardSpec(Fresh(t), ValuesOf(nodes, ins), exp);
      ForwardChecksShapes(Fresh(t), ValuesOf(nodes, ins), exp);
      var (node, state) := made.value;
      opList := opList + [state];
      varList := varList + [|nodes|];
      nodes := nodes + [node];
      r := Ok(Iterator(Some(|nodes| - 1)));
      AppendKeepsWellFormed(old(nodes), old(varList), old(opList), node, state);
    }

    /** `clear`: release every operator and derived node; leaves, owned by the client, stay. */
    method Clear()
      requires Valid()
      modifies this
      ensures Valid()
      ensures nodes == old(nodes) && varList == [] && opList == []
      ensures forall h: nat :: Live(nodes, varList, h) <==> h < |nodes| && nodes[h].operation.None?
    {
      opList := [];
      varList := [];
    }

    /** `~graph`: clears; clearing an empty graph again changes nothing. */
    method Dispose()
      requires Valid()
      modifies this
      ensures Valid()
      ensures nodes == old(nodes) && varList == [] && opList == []
    {
      Clear();
    }

    /**
     * `find_outdegrees`: a breadth-first walk from the target over input
     * edges. The visited set expands every node the target depends on once;
     * every input position of an expanded node counts one use, repetitions
     * included, so each node ends with its number of consumer edges inside
     * the reached set, and the target with 0.
     */
    method FindOutdegrees(target: nat) returns (outdegrees: map<nat, int>)
      requires Valid() && target < |nodes|
      ensures outdegrees.Keys == Reach(nodes, target)
      ensures forall n :: n in outdegrees ==> outdegrees[n] == Uses(nodes, Reach(nodes, target), n)
    {
      ghost var r := Reach(nodes, target);
      outdegrees := map[target := 0];
      var visited := {target};
      var q := [target];
      ghost var expanded: set<nat> := {};
      forall n ensures Uses(nodes, {}, n) == 0 {
        UsesZero(nodes, {}, n);
      }
      assert Walking(nodes, target, expanded, visited, q, outdegrees);
      while |q| > 0
        invariant Walking(nodes, target, expanded, visited, q, outdegrees)
        decreases r - expanded
      {
        var node := q[0];
        var rest := q[1..];
        DistinctTail(q);
        ghost var visited0, q0, outdegrees0 := visited, q, outdegrees;
        outdegrees, visited, q := Expand(node, outdegrees, visited, rest);
        WalkStep(nodes, target, expanded, visited0, q0, outdegrees0, rest, visited, q, outdegrees);
        expanded := expanded + {node};
      }
      assert visited == expanded;
      ReachLeast(nodes, target, visited);
    }

    /**
     * The inner loop of find_outdegrees: count one use for each input
     * position of node, and queue each input seen for the first time.
     */
    method Expand(node: nat, outdegrees: map<nat, int>, visited: set<nat>, q: seq<nat>)
      returns (outdegrees': map<nat, int>, visited': set<nat>, q': seq<nat>)
      requires node < |nodes| && outdegrees.Keys == visited
      requires Distinct(q) && forall j :: 0 <= j < |q| ==> q[j] in visited
      ensures Expanded(nodes[node].inputs, outdegrees, visited, q, outdegrees', visited', q')
    {
      outdegrees', visited', q' := outdegrees, visited, q;
      var ins := nodes[node].inputs;
      var k := 0;
      ExpandedNone(outdegrees, visited, q);
      assert ins[..0] == [];
      while k < |ins|
        invariant 0 <= k <= |ins|
        invariant Expanded(ins[..k], outdegrees, visited, q, outdegrees', visited', q')
      {
        var i := ins[k];
        var od, v, q0 := outdegrees'[i := Count(outdegrees', i) + 1], visited', q';
        if i !in visited' {
          v, q0 := visited' + {i}, q' + [i];
        }
        ExpandedNext(ins, k, outdegrees, visited, q, outdegrees', visited', q', od, v, q0);
        outdegrees', visited', q', k := od, v, q0, k + 1;
      }
      assert ins[..k] == ins;
    }

    /** graph::add_to_vector. */
    method AddToVector(a: Vector, b: Vector) returns (r: Result<Vector>)
      ensures r == Accumulate(a, b)
    {
      var acc := a;
      if |acc| == 0 {
        acc := Zeros(|b|);
      }
      if |acc| != |b| {
        return Fail(AssertionFailed);
      }
      ghost var resized := acc;
      var i := 0;
      while i < |acc|
        invariant 0 <= i <= |acc| == |resized| == |b|
        invariant forall k :: 0 <= k < i ==> acc[k] == resized[k] + b[k]
        invariant forall k :: i <= k < |acc| ==> acc[k] == resized[k]
      {
        acc := acc[i := acc[i] + b[i]];
        i := i + 1;
      }
      assert acc == Plus(resized, b);
      r := Ok(acc);
    }

    /**
     * The inner loop of compute_gradients: add the i-th adjoint into the
     * gradient of the i-th input, count that use off the input's counter,
     * and queue the input once its counter reaches zero.
     */
    method Propagate(s: Sched, ins: seq<nat>, adj: seq<Vector>) returns (r: Result<Sched>)
      requires |ins| == |adj|
      requires forall n :: n in ins ==> n in s.outdegrees && s.outdegrees[n] >= multiset(ins)[n] && n !in s.queue
      ensures r.Ok? <==> forall n :: Fold(GetOr(s.gradients, n), Picks(ins, adj, n)).Ok?
      ensures r.Fail? ==> r.failure == AssertionFailed
      ensures r.Ok? ==> Propagated(s, ins, adj, r.value)
    {
      var cur := s;
      PropagatedNone(s);
      var i := 0;
      while i < |ins|
        invariant 0 <= i <= |ins|
        invariant Propagated(s, ins[..i], adj[..i], cur)
      {
        var next := Absorb(s, ins, adj, i, cur);
        if next.Fail? {
          return next;
        }
        cur, i := next.value, i + 1;
      }
      PropagatedAll(s, ins, adj, cur);
      r := Ok(cur);
    }

    /**
     * One position of the inner loop of compute_gradients: the i-th adjoint
     * is added into the gradient of the i-th input, whose counter loses one
     * use; the input is queued once its counter reaches zero.
     */
    method Absorb(s: Sched, ins: seq<nat>, adj: seq<Vector>, i: nat, cur: Sched) returns (r: Result<Sched>)
      requires |ins| == |adj| && i < |ins|
      requires forall n :: n in ins ==> n in s.outdegrees && s.outdegrees[n] >= multiset(ins)[n] && n !in s.queue
      requires Propagated(s, ins[..i], adj[..i], cur)
      ensures r.Fail? ==> r.failure == AssertionFailed && Fold(GetOr(s.gradients, ins[i]), Picks(ins, adj, ins[i])).Fail?
      ensures r.Ok? ==> Propagated(s, ins[..i + 1], adj[..i + 1], r.value)
    {
      var inNode := ins[i];
      assert inNode in ins;
      var acc := AddToVector(GetOr(cur.gradients, inNode), adj[i]);
      if acc.Fail? {
        PropagateFails(s, ins, adj, i, cur);
        return Fail(acc.failure);
      }
      var outdegrees := cur.outdegrees[inNode := cur.outdegrees[inNode] - 1];
      var q := cur.queue;
      if outdegrees[inNode] == 0 {
        q := q + [inNode];
      }
      var next := Sched(cur.gradients[inNode := acc.value], outdegrees, q);
      PropagatedNext(s, ins, adj, i, cur, next);
      r := Ok(next);
    }

    /**
     * One round of the loop of compute_gradients: take the node at the head
     * of the queue; a leaf has nothing to pass on, a derived node runs its
     * operator's backward pass on the gradient it holds and propagates the
     * adjoints to its inputs. The step records what was done.
     */
    method Process(ghost before: seq<Op>, target: nat, s: Sched, ghost done: set<nat>, ghost log: seq<Step>)
      returns (r: Result<Sched>, ghost step: Step)
      requires Scheduled(nodes, varList, target, before, opList, done, log, s.gradients, s.outdegrees, s.queue)
      requires |s.queue| > 0
      modifies this`opList
      ensures WellFormed(nodes, varList, opList) && |opList| == |before|
      ensures r.Fail? <==> Stuck(nodes, old(opList), s.gradients, s.queue[0])
      ensures r.Fail? ==> opList == old(opList)
      ensures r.Ok? ==> s.queue[0] in Reach(nodes, target) && s.queue[0] !in done
      ensures r.Ok? ==> Scheduled(nodes, varList, target, before, opList, done + {s.queue[0]}, log + [step],
        r.value.gradients, r.value.outdegrees, r.value.queue)
    {
      var node := s.queue[0];
      Head(nodes, varList, target, before, opList, done, log, s.gradients, s.outdegrees, s.queue);
      var gradient := GetOr(s.gradients, node);
      match nodes[node].operation {
        case None =>
          LeafStep(nodes, varList, target, before, opList, done, log, s.gradients, s.outdegrees, s.queue);
          step := Step(node, gradient, []);
          r := Ok(Sched(s.gradients, s.outdegrees, s.queue[1..]));
        case Some(j) =>
          ghost var ops := opList;
          ghost var b;
          r, b := Derive(s, j);
          step := Step(node, gradient, b.adjoints);
          if r.Ok? {
            DerivedStep(nodes, varList, target, before, ops, done, log, s.gradients, s.outdegrees, s.queue, b, r.value);
          }
      }
    }

    /**
     * The round of Process for a derived node: its operator's backward pass
     * on the gradient the node holds, whose adjoints are propagated to the
     * node's inputs; the operator keeps the state the pass leaves it in.
     */
    method Derive(s: Sched, j: nat) returns (r: Result<Sched>, ghost b: Backwarded)
      requires |s.queue| > 0 && s.queue[0] < |nodes| && j < |opList|
      requires nodes[s.queue[0]].operation == Some(j) && GradCount(opList[j]) == |nodes[s.queue[0]].inputs|
      requires forall n :: n in nodes[s.queue[0]].inputs ==>
        n in s.outdegrees && s.outdegrees[n] >= multiset(nodes[s.queue[0]].inputs)[n] && n !in s.queue[1..]
      modifies this`opList
      ensures r.Fail? <==> Stuck(nodes, old(opList), s.gradients, s.queue[0])
      ensures r.Fail? ==> opList == old(opList)
      ensures r.Ok? ==> GradSpec(old(opList)[j], GetOr(s.gradients, s.queue[0])) == Ok(b)
      ensures r.Ok? ==> |b.adjoints| == |nodes[s.queue[0]].inputs| && opList == old(opList)[j := b.state]
      ensures r.Ok? ==> Propagated(Sched(s.gradients, s.outdegrees, s.queue[1..]), nodes[s.queue[0]].inputs, b.adjoints, r.value)
    {
      var node := s.queue[0];
      var gradient := GetOr(s.gradients, node);
      var g := Grad(opList[j], gradient);
      if g.Fail? {
        return Fail(g.failure), Backwarded(opList[j], []);
      }
      b := g.value;
      GradKeepsArity(opList[j], gradient);
      var next := Propagate(Sched(s.gradients, s.outdegrees, s.queue[1..]), nodes[node].inputs, g.value.adjoints);
      if next.Fail? {
        return Fail(next.failure), b;
      }
      opList := opList[j := g.value.state];
      r := Ok(next.value);
    }

    /**
     * `compute_gradients`: the gradient of the target with respect to each
     * requested node: count the consumer edges, run the backward passes from
     * the target (Backpropagate), and read off the gradient of each requested
     * node. The ghost log records every node taken off the queue, in order.
     */
    method ComputeGradients(tar: Iterator, requested: seq<Iterator>) returns (r: Result<seq<Vector>>, ghost log: seq<Step>, ghost stuck: Sched)
      requires Valid()
      requires tar.reference.Some? ==> Live(nodes, varList, tar.reference.value)
      modifies this`opList
      ensures Valid()
      ensures tar.reference.None? ==> r == Fail(Undefined)
      ensures r.Ok? ==> tar.reference.Some? && Logged(nodes, log) && Once(log)
      ensures r.Ok? ==> LogNodes(log) == Reach(nodes, tar.reference.value)
      ensures r.Ok? ==> forall k, k' :: 0 <= k < |log| && 0 <= k' < |log| && log[k].node in nodes[log[k'].node].inputs ==> k' < k
      ensures r.Ok? ==> forall k :: 0 <= k < |log| ==> ByOperator(old(opList), opList, nodes[log[k].node], log[k])
      ensures r.Ok? ==> forall k :: 0 <= k < |log| ==>
        Fold(Seed(tar.reference.value, log[k].node), Contribs(nodes, log, log[k].node)) == Ok(log[k].received)
      ensures r.Ok? ==> forall n :: |Contribs(nodes, log, n)| == Uses(nodes, Reach(nodes, tar.reference.value), n)
      ensures r.Ok? ==> forall j :: 0 <= j < |opList| && varList[j] !in LogNodes(log) ==> opList[j] == old(opList)[j]
      ensures r.Fail? && tar.reference.Some? ==> |stuck.queue| > 0 && Stuck(nodes, opList, stuck.gradients, stuck.queue[0])
      ensures r.Fail? && tar.reference.Some? ==> Scheduled(nodes, varList, tar.reference.value, old(opList), opList,
        LogNodes(log), log, stuck.gradients, stuck.outdegrees, stuck.queue)
      ensures r.Ok? ==> |r.value| == |requested|
      ensures r.Ok? ==> forall i :: 0 <= i < |requested| && requested[i].reference.None? ==> r.value[i] == []
      ensures r.Ok? ==> forall i :: 0 <= i < |requested| && requested[i].reference.Some? ==>
        Fold(Seed(tar.reference.value, requested[i].reference.value), Contribs(nodes, log, requested[i].reference.value)) == Ok(r.value[i])
      ensures r.Ok? ==> forall i :: 0 <= i < |requested| && requested[i].reference.Some? && requested[i].reference.value !in Reach(nodes, tar.reference.value) ==>
        r.value[i] == []
      ensures r.Ok? ==> forall i :: 0 <= i < |requested| && requested[i] == tar ==> r.value[i] == [1.0]
    {
      log, stuck := [], Sched(map[], map[], []);
      if tar.reference.None? {
        return Fail(Undefined), log, stuck;
      }
      var target := tar.reference.value;
      var outdegrees := FindOutdegrees(target);
      var gradients;
      gradients, log, stuck := Backpropagate(target, outdegrees);
      if gradients.Fail? {
        return Fail(gradients.failure), log, stuck;
      }
      assert forall k :: 0 <= k < |log| ==> Fold(Seed(target, log[k].node), Contribs(nodes, log, log[k].node)) == Ok(log[k].received);
      var result := Collect(gradients.value, requested);
      Answered(nodes, target, log, gradients.value, requested, result);
      r := Ok(result);
    }

    /**
     * The loop of compute_gradients: seeded with [1.0] at the target, nodes
     * are taken off the queue, one round of Process each, until the queue
     * runs empty. A node is queued when its last consumer edge has been
     * counted off, so each node the target depends on runs once, after all
     * its consumers, and has by then received the adjoints of all of them.
     */
    method Backpropagate(target: nat, outdegrees: map<nat, int>) returns (r: Result<map<nat, Vector>>, ghost log: seq<Step>, ghost stuck: Sched)
      requires Valid() && Live(nodes, varList, target)
      requires outdegrees.Keys == Reach(nodes, target)
      requires forall n :: n in outdegrees ==> outdegrees[n] == Uses(nodes, Reach(nodes, target), n)
      modifies this`opList
      ensures Valid()
      ensures r.Ok? ==> Logged(nodes, log) && Once(log) && LogNodes(log) == Reach(nodes, target)
      ensures r.Ok? ==> forall k, k' :: 0 <= k < |log| && 0 <= k' < |log| && log[k].node in nodes[log[k'].node].inputs ==> k' < k
      ensures r.Ok? ==> forall n :: Fold(Seed(target, n), Contribs(nodes, log, n)) == Ok(GetOr(r.value, n))
      ensures r.Ok? ==> forall k :: 0 <= k < |log| ==> log[k].received == GetOr(r.value, log[k].node)
      ensures r.Ok? ==> forall n :: |Contribs(nodes, log, n)| == Uses(nodes, Reach(nodes, target), n)
      ensures r.Ok? ==> forall n :: n !in Reach(nodes, target) ==> GetOr(r.value, n) == []
      ensures r.Ok? ==> GetOr(r.value, target) == [1.0]
      ensures r.Ok? ==> forall k :: 0 <= k < |log| ==> ByOperator(old(opList), opList, nodes[log[k].node], log[k])
      ensures r.Ok? ==> forall j :: 0 <= j < |opList| && varList[j] !in LogNodes(log) ==> opList[j] == old(opList)[j]
      ensures r.Fail? ==> |stuck.queue| > 0 && Stuck(nodes, opList, stuck.gradients, stuck.queue[0])
      ensures r.Fail? ==> Scheduled(nodes, varList, target, old(opList), opList, LogNodes(log), log, stuck.gradients, stuck.outdegrees, stuck.queue)
    {
      var state := Sched(map[target := [1.0]], outdegrees, [target]);
      Started(nodes, varList, opList, target, outdegrees);
      var drained;
      ghost var done;
      drained, log, done, stuck := Drain(target, state);
      if drained.Fail? {
        return Fail(drained.failure), log, stuck;
      }
      Finished(nodes, varList, target, old(opList), opList, done, log, drained.value.gradients, drained.value.outdegrees);
      r := Ok(drained.value.gradients);
    }

    /**
     * The `while (q.size())` loop of compute_gradients: one round of Process
     * per node taken off the queue, until the queue runs empty or a backward
     * pass or an accumulation fails.
     */
    method Drain(target: nat, s: Sched) returns (r: Result<Sched>, ghost log: seq<Step>, ghost done: set<nat>, ghost stuck: Sched)
      requires Scheduled(nodes, varList, target, opList, opList, {}, [], s.gradients, s.outdegrees, s.queue)
      modifies this`opList
      ensures WellFormed(nodes, varList, opList)
      ensures r.Ok? ==> r.value.queue == []
      ensures r.Ok? ==> Scheduled(nodes, varList, target, old(opList), opList, done, log, r.value.gradients, r.value.outdegrees, [])
      ensures r.Fail? ==> |stuck.queue| > 0 && Stuck(nodes, opList, stuck.gradients, stuck.queue[0])
      ensures r.Fail? ==> Scheduled(nodes, varList, target, old(opList), opList, done, log, stuck.gradients, stuck.outdegrees, stuck.queue)
    {
      var state := s;
      log, done, stuck := [], {}, s;
      ghost var reach := Reach(nodes, target);
      while |state.queue| > 0
        invariant Scheduled(nodes, varList, target, old(opList), opList, done, log, state.gradients, state.outdegrees, state.queue)
        decreases reach - done
      {
        ghost var node := state.queue[0];
        var next, step := Process(old(opList), target, state, done, log);
        if next.Fail? {
          return Fail(next.failure), log, done, state;
        }
        state := next.value;
        done, log := done + {node}, log + [step];
      }
      r := Ok(state);
    }
  }

  /** The answer of compute_gradients: the gradient found for each requested node, in order. */
  method Collect(gradients: map<nat, Vector>, requested: seq<Iterator>) returns (result: seq<Vector>)
    ensures |result| == |requested|
    ensures forall i :: 0 <= i < |requested| ==> result[i] == GradientOf(gradients, requested[i])
  {
    result := [];
    var i := 0;
    while i < |requested|
      invariant 0 <= i <= |requested| && |result| == i
      invariant forall k :: 0 <= k < i ==> result[k] == GradientOf(gradients, requested[k])
    {
      result := result + [GradientOf(gradients, requested[i])];
      i := i + 1;
    }
  }

  /** What the gradients read off for the requested nodes are, given what the backward passes accumulated. */
  lemma Answered(nodes: seq<Var>, t: nat, log: seq<Step>, gradients: map<nat, Vector>, requested: seq<Iterator>, result: seq<Vector>)
    requires t < |nodes| && Logged(nodes, log)
    requires forall n :: Fold(Seed(t, n), Contribs(nodes, log, n)) == Ok(GetOr(gradients, n))
    requires forall n :: n !in Reach(nodes, t) ==> GetOr(gradients, n) == []
    requires GetOr(gradients, t) == [1.0]
    requires |result| == |requested| && forall i :: 0 <= i < |requested| ==> result[i] == GradientOf(gradients, requested[i])
    ensures forall i :: 0 <= i < |requested| && requested[i].reference.None? ==> result[i] == []
    ensures forall i :: 0 <= i < |requested| && requested[i].reference.Some? ==>
      Fold(Seed(t, requested[i].reference.value), Contribs(nodes, log, requested[i].reference.value)) == Ok(result[i])
    ensures forall i :: 0 <= i < |requested| && requested[i].reference.Some? && requested[i].reference.value !in Reach(nodes, t) ==>
      result[i] == []
    ensures forall i :: 0 <= i < |requested| && requested[i] == Iterator(Some(t)) ==> result[i] == [1.0]
  {
  }

  // ---------------------------------------------------------------------------
  // The steps of the proofs above

  /**
   * What find_outdegrees' inner loop does for the input positions ins of a
   * node: each position counts one use of its input, inputs not visited
   * before are visited and queued behind q once each, and nothing else
   * changes.
   */
  ghost predicate Expanded(ins: seq<nat>, od: map<nat, int>, visited: set<nat>, q: seq<nat>,
                           od': map<nat, int>, visited': set<nat>, q': seq<nat>)
  {
    od'.Keys == visited' &&
    (forall n :: n in visited' <==> n in visited || n in ins) &&
    (forall n {:trigger Count(od', n)} :: Count(od', n) == Count(od, n) + multiset(ins)[n]) &&
    |q'| >= |q| && (forall j :: 0 <= j < |q| ==> q'[j] == q[j]) &&
    (forall j :: 0 <= j < |q'| ==> q'[j] in visited') &&
    (forall j :: |q| <= j < |q'| ==> q'[j] !in visited) &&
    (forall n :: n in visited' && n !in visited ==> n in q') &&
    Distinct(q')
  }

  lemma ExpandedNone(od: map<nat, int>, visited: set<nat>, q: seq<nat>)
    requires od.Keys == visited && Distinct(q) && forall j :: 0 <= j < |q| ==> q[j] in visited
    ensures Expanded([], od, visited, q, od, visited, q)
  {
  }

  /** Counting position k: one more use of ins[k], which is queued when seen for the first time. */
  lemma ExpandedNext(ins: seq<nat>, k: nat, od: map<nat, int>, visited: set<nat>, q: seq<nat>,
                     od': map<nat, int>, visited': set<nat>, q': seq<nat>,
                     od'': map<nat, int>, visited'': set<nat>, q'': seq<nat>)
    requires k < |ins| && Expanded(ins[..k], od, visited, q, od', visited', q')
    requires od'' == od'[ins[k] := Count(od', ins[k]) + 1]
    requires visited'' == if ins[k] in visited' then visited' else visited' + {ins[k]}
    requires q'' == if ins[k] in visited' then q' else q' + [ins[k]]
    ensures Expanded(ins[..k + 1], od, visited, q, od'', visited'', q'')
  {
    var i := ins[k];
    assert ins[..k + 1] == ins[..k] + [i];
    if i !in visited' {
      DistinctAppend(q', [i]);
    }
    assert multiset(ins[..k + 1]) == multiset(ins[..k]) + multiset{i};
    forall n ensures Count(od'', n) == Count(od, n) + multiset(ins[..k + 1])[n] {
      assert Count(od', n) == Count(od, n) + multiset(ins[..k])[n];
    }
  }

  /**
   * The invariant of find_outdegrees' walk: the expanded nodes are visited,
   * the queue holds exactly the visited nodes not yet expanded, once each,
   * every input of an expanded node is visited, and each count is the
   * number of uses of its node by the expanded nodes.
   */
  ghost predicate Walking(nodes: seq<Var>, t: nat, expanded: set<nat>, visited: set<nat>, q: seq<nat>, outdegrees: map<nat, int>)
  {
    Ordered(nodes) && t < |nodes| &&
    expanded <= visited <= Reach(nodes, t) && t in visited &&
    (forall k :: 0 <= k < |q| ==> q[k] in visited && q[k] !in expanded) &&
    (forall n :: n in visited && n !in expanded ==> n in q) &&
    Distinct(q) &&
    outdegrees.Keys == visited &&
    (forall n :: Count(outdegrees, n) == Uses(nodes, expanded, n)) &&
    (forall c, i :: c in expanded && c < |nodes| && i in nodes[c].inputs ==> i in visited)
  }

  /** Expanding the head of the queue keeps the walk's invariant. */
  lemma WalkStep(nodes: seq<Var>, t: nat, expanded: set<nat>, visited: set<nat>, q: seq<nat>, outdegrees: map<nat, int>,
                 rest: seq<nat>, visited': set<nat>, q': seq<nat>, outdegrees': map<nat, int>)
    requires Walking(nodes, t, expanded, visited, q, outdegrees) && |q| > 0 && rest == q[1..]
    requires q[0] < |nodes| && Expanded(nodes[q[0]].inputs, outdegrees, visited, rest, outdegrees', visited', q')
    ensures Walking(nodes, t, expanded + {q[0]}, visited', q', outdegrees')
  {
    var node := q[0];
    var e' := expanded + {node};
    DistinctHead(q);
    forall i | i in nodes[node].inputs ensures i in Reach(nodes, t) {
      ReachClosed(nodes, t, node, i);
    }
    forall n ensures Count(outdegrees', n) == Uses(nodes, e', n) {
      UsesAdd(nodes, expanded, node, n);
    }
    forall k | 0 <= k < |q'| ensures q'[k] in visited' && q'[k] !in e' {
      if k < |rest| {
        assert q'[k] == q[k + 1];
      }
    }
    forall n | n in visited' && n !in e' ensures n in q' {
      if n in visited {
        var m :| 0 <= m < |q| && q[m] == n;
        assert m > 0;
        assert q'[m - 1] == n;
      }
    }
  }

  /** Appending a derived node whose inputs are live keeps a graph well formed. */
  lemma AppendKeepsWellFormed(nodes: seq<Var>, varList: seq<nat>, opList: seq<Op>, node: Var, state: Op)
    requires WellFormed(nodes, varList, opList)
    requires node.operation == Some(|opList|)
    requires forall i :: i in node.inputs ==> Live(nodes, varList, i)
    requires GradCount(state) == |node.inputs|
    ensures WellFormed(nodes + [node], varList + [|nodes|], opList + [state])
    ensures forall h: nat :: Live(nodes, varList, h) ==> Live(nodes + [node], varList + [|nodes|], h)
  {
    var nodes', varList', opList' := nodes + [node], varList + [|nodes|], opList + [state];
    assert forall h :: 0 <= h < |nodes| ==> nodes'[h] == nodes[h];
    forall h | 0 <= h < |nodes'|
      ensures Live(nodes', varList', h) <==> Live(nodes, varList, h) || h == |nodes|
    {
      if h < |nodes| && nodes[h].operation.Some? && nodes[h].operation.value == |varList| {
        assert varList'[|varList|] == |nodes| != h;
      }
    }
  }

  /** Replacing an operator by one with the same adjoint count keeps a graph well formed. */
  lemma UpdateKeepsWellFormed(nodes: seq<Var>, varList: seq<nat>, opList: seq<Op>, j: nat, state: Op)
    requires WellFormed(nodes, varList, opList) && j < |opList|
    requires GradCount(state) == GradCount(opList[j])
    ensures WellFormed(nodes, varList, opList[j := state])
  {
  }

  // The inner loop

  lemma PropagatedNone(s: Sched)
    ensures Propagated(s, [], [], s)
  {
    assert s.queue[|s.queue|..] == [];
  }

  /** The inner loop run to the end: every input's fold succeeded. */
  lemma PropagatedAll(s: Sched, ins: seq<nat>, adj: seq<Vector>, cur: Sched)
    requires |ins| == |adj| && Propagated(s, ins[..|ins|], adj[..|adj|], cur)
    ensures Propagated(s, ins, adj, cur)
    ensures forall n :: Fold(GetOr(s.gradients, n), Picks(ins, adj, n)).Ok?
  {
    assert ins[..|ins|] == ins && adj[..|adj|] == adj;
  }

  /** One more position of the inner loop. */
  lemma PropagatedNext(s: Sched, ins: seq<nat>, adj: seq<Vector>, i: nat, cur: Sched, next: Sched)
    requires |ins| == |adj| && i < |ins|
    requires forall n :: n in ins ==> n in s.outdegrees && s.outdegrees[n] >= multiset(ins)[n] && n !in s.queue
    requires Propagated(s, ins[..i], adj[..i], cur)
    requires Accumulate(GetOr(cur.gradients, ins[i]), adj[i]).Ok?
    requires next.gradients == cur.gradients[ins[i] := Accumulate(GetOr(cur.gradients, ins[i]), adj[i]).value]
    requires ins[i] in cur.outdegrees && next.outdegrees == cur.outdegrees[ins[i] := cur.outdegrees[ins[i]] - 1]
    requires next.queue == if next.outdegrees[ins[i]] == 0 then cur.queue + [ins[i]] else cur.queue
    ensures Propagated(s, ins[..i + 1], adj[..i + 1], next)
  {
    PropagatedNextGradients(s, ins, adj, i, cur, next);
    PropagatedNextCounts(s, ins, i, cur, next);
  }

  lemma PropagatedNextGradients(s: Sched, ins: seq<nat>, adj: seq<Vector>, i: nat, cur: Sched, next: Sched)
    requires |ins| == |adj| && i < |ins|
    requires Accumulated(s, ins[..i], adj[..i], cur)
    requires Accumulate(GetOr(cur.gradients, ins[i]), adj[i]).Ok?
    requires next.gradients == cur.gradients[ins[i] := Accumulate(GetOr(cur.gradients, ins[i]), adj[i]).value]
    ensures Accumulated(s, ins[..i + 1], adj[..i + 1], next)
  {
    var m := ins[i];
    assert ins[..i + 1] == ins[..i] + [m];
    forall n ensures Fold(GetOr(s.gradients, n), Picks(ins[..i + 1], adj[..i + 1], n)) == Ok(GetOr(next.gradients, n)) {
      PicksNext(ins, adj, n, i);
      if n == m {
        FoldNext(GetOr(s.gradients, m), Picks(ins[..i], adj[..i], m), adj[i]);
      } else {
        assert Picks(ins[..i + 1], adj[..i + 1], n) == Picks(ins[..i], adj[..i], n);
      }
    }
  }

  lemma PropagatedNextCounts(s: Sched, ins: seq<nat>, i: nat, cur: Sched, next: Sched)
    requires i < |ins|
    requires forall n :: n in ins ==> n in s.outdegrees && s.outdegrees[n] >= multiset(ins)[n] && n !in s.queue
    requires Counted(s, ins[..i], cur)
    requires ins[i] in cur.outdegrees && next.outdegrees == cur.outdegrees[ins[i] := cur.outdegrees[ins[i]] - 1]
    requires next.queue == if next.outdegrees[ins[i]] == 0 then cur.queue + [ins[i]] else cur.queue
    ensures Counted(s, ins[..i + 1], next)
  {
    CountStep(s.outdegrees, ins, i, cur.outdegrees, next.outdegrees);
    QueueStep(s.queue, ins, i, cur.outdegrees, cur.queue, next.outdegrees, next.queue);
  }

  /** Counting off position i of ins: one use fewer of ins[i], which had one left. */
  lemma CountStep(od0: map<nat, int>, ins: seq<nat>, i: nat, od: map<nat, int>, od': map<nat, int>)
    requires i < |ins|
    requires forall n :: n in ins ==> n in od0 && od0[n] >= multiset(ins)[n]
    requires od.Keys == od0.Keys && forall n :: n in od0 ==> od[n] == od0[n] - multiset(ins[..i])[n]
    requires ins[i] in od && od' == od[ins[i] := od[ins[i]] - 1]
    ensures od'.Keys == od0.Keys
    ensures forall n :: n in od0 ==> od'[n] == od0[n] - multiset(ins[..i + 1])[n]
    ensures od[ins[i]] >= 1
  {
    var m := ins[i];
    assert ins[..i + 1] == ins[..i] + [m];
    assert multiset(ins[..i + 1]) == multiset(ins[..i]) + multiset{m};
    assert ins == ins[..i + 1] + ins[i + 1..];
    assert multiset(ins) == multiset(ins[..i + 1]) + multiset(ins[i + 1..]);
  }

  /** Queueing ins[i] when its count reaches 0 keeps the new part of the queue exact and free of repeats. */
  lemma QueueStep(q0: seq<nat>, ins: seq<nat>, i: nat, od: map<nat, int>, q: seq<nat>, od': map<nat, int>, q': seq<nat>)
    requires i < |ins| && ins[i] in od && od[ins[i]] >= 1
    requires od'.Keys == od.Keys && od'[ins[i]] == od[ins[i]] - 1
    requires forall n :: n in od && n != ins[i] ==> od'[n] == od[n]
    requires |q| >= |q0| && q[..|q0|] == q0 && Distinct(q[|q0|..])
    requires forall n :: n in q[|q0|..] <==> n in ins[..i] && n in od && od[n] == 0
    requires q' == if od'[ins[i]] == 0 then q + [ins[i]] else q
    ensures |q'| >= |q0| && q'[..|q0|] == q0
    ensures Distinct(q'[|q0|..])
    ensures forall n :: n in q'[|q0|..] <==> n in ins[..i + 1] && n in od' && od'[n] == 0
  {
    var m, k := ins[i], |q0|;
    assert ins[..i + 1] == ins[..i] + [m];
    assert m !in q[k..];
    if q' != q {
      assert q'[k..] == q[k..] + [m];
    }
  }

  /** A failed accumulation at position i fails the fold of the input's contributions. */
  lemma PropagateFails(s: Sched, ins: seq<nat>, adj: seq<Vector>, i: nat, cur: Sched)
    requires |ins| == |adj| && i < |ins|
    requires Propagated(s, ins[..i], adj[..i], cur)
    requires Accumulate(GetOr(cur.gradients, ins[i]), adj[i]).Fail?
    ensures Fold(GetOr(s.gradients, ins[i]), Picks(ins, adj, ins[i])).Fail?
  {
    var m := ins[i];
    PicksNext(ins, adj, m, i);
    FoldNext(GetOr(s.gradients, m), Picks(ins[..i], adj[..i], m), adj[i]);
    PicksSplit(ins, adj, m, i + 1);
    FoldAppend(GetOr(s.gradients, m), Picks(ins[..i + 1], adj[..i + 1], m), Picks(ins[i + 1..], adj[i + 1..], m));
  }

  // The outer loop

  /** Each node is logged after every node that consumes it. */
  ghost predicate InOrder(nodes: seq<Var>, log: seq<Step>)
  {
    forall k, k' :: 0 <= k < |log| && 0 <= k' < |log| && log[k'].node < |nodes| && log[k].node in nodes[log[k'].node].inputs ==>
      k' < k
  }

  /**
   * The operators' side of compute_gradients' loop: the graph stays well
   * formed and every node the target depends on alive, each logged step is
   * its node's operator's backward pass, and operators of nodes not yet
   * taken off the queue are untouched.
   */
  ghost predicate Owned(nodes: seq<Var>, varList: seq<nat>, t: nat, before: seq<Op>, ops: seq<Op>, done: set<nat>, log: seq<Step>)
  {
    WellFormed(nodes, varList, ops) && |ops| == |before| && t < |nodes| &&
    (forall n :: n in Reach(nodes, t) ==> Live(nodes, varList, n)) &&
    (forall k :: 0 <= k < |log| && log[k].node < |nodes| ==> ByOperator(before, ops, nodes[log[k].node], log[k])) &&
    (forall j :: 0 <= j < |ops| && varList[j] !in done ==> ops[j] == before[j])
  }

  /**
   * The scheduler's side of compute_gradients' loop: the nodes of done have
   * been taken off the queue, once each, in the order of log, and the
   * counters and the gradients are what they should be after that.
   */
  ghost predicate Pass(nodes: seq<Var>, t: nat, done: set<nat>, log: seq<Step>,
                       gradients: map<nat, Vector>, outdegrees: map<nat, int>, q: seq<nat>)
  {
    Ordered(nodes) && t < |nodes| &&
    done <= Reach(nodes, t) && Logged(nodes, log) && Once(log) && LogNodes(log) == done &&
    Counters(nodes, Reach(nodes, t), done, outdegrees, q) &&
    gradients.Keys <= Reach(nodes, t) && Gathered(nodes, t, log, gradients) && InOrder(nodes, log)
  }

  /** The invariant of compute_gradients' loop. */
  ghost predicate Scheduled(nodes: seq<Var>, varList: seq<nat>, t: nat, before: seq<Op>, ops: seq<Op>, done: set<nat>,
                            log: seq<Step>, gradients: map<nat, Vector>, outdegrees: map<nat, int>, q: seq<nat>)
  {
    Owned(nodes, varList, t, before, ops, done, log) && Pass(nodes, t, done, log, gradients, outdegrees, q)
  }

  /**
   * The round of compute_gradients for node c fails: its operator's
   * backward pass on the gradient c holds fails, or adding one of the
   * adjoints into the gradient of one of c's inputs fails. A leaf's round
   * never fails.
   */
  ghost predicate Stuck(nodes: seq<Var>, ops: seq<Op>, gradients: map<nat, Vector>, c: nat)
  {
    c < |nodes| && nodes[c].operation.Some? && nodes[c].operation.value < |ops| &&
    var g := GradSpec(ops[nodes[c].operation.value], GetOr(gradients, c));
    g.Fail? ||
    (|g.value.adjoints| == |nodes[c].inputs| &&
     exists n :: Fold(GetOr(gradients, n), Picks(nodes[c].inputs, g.value.adjoints, n)).Fail?)
  }

  /** The scheduler's state right after seeding the target. */
  lemma Started(nodes: seq<Var>, varList: seq<nat>, ops: seq<Op>, t: nat, outdegrees: map<nat, int>)
    requires WellFormed(nodes, varList, ops) && Live(nodes, varList, t)
    requires outdegrees.Keys == Reach(nodes, t)
    requires forall n :: n in outdegrees ==> outdegrees[n] == Uses(nodes, Reach(nodes, t), n)
    ensures Scheduled(nodes, varList, t, ops, ops, {}, [], map[t := [1.0]], outdegrees, [t])
  {
    ReachLive(nodes, varList, ops, t);
    var r := Reach(nodes, t);
    assert r - {} == r;
    forall n | n in r ensures outdegrees[n] == 0 <==> n == t {
      UsesZero(nodes, r, n);
      if n == t {
        TargetUnused(nodes, t);
      } else {
        var c := ReachConsumed(nodes, t, n);
      }
    }
    assert LogNodes([]) == {};
  }

  /**
   * What the node at the head of the queue may count on: it is reached and
   * not yet done, its inputs wait for it, and a derived node's operator
   * returns one adjoint per input.
   */
  lemma Head(nodes: seq<Var>, varList: seq<nat>, t: nat, before: seq<Op>, ops: seq<Op>, done: set<nat>,
             log: seq<Step>, gradients: map<nat, Vector>, outdegrees: map<nat, int>, q: seq<nat>)
    requires Scheduled(nodes, varList, t, before, ops, done, log, gradients, outdegrees, q) && |q| > 0
    ensures q[0] < |nodes| && q[0] in Reach(nodes, t) && q[0] !in done
    ensures forall n :: n in nodes[q[0]].inputs ==>
      n in outdegrees && outdegrees[n] >= multiset(nodes[q[0]].inputs)[n] && n !in q[1..]
    ensures nodes[q[0]].operation.Some? ==>
      nodes[q[0]].operation.value < |ops| && GradCount(ops[nodes[q[0]].operation.value]) == |nodes[q[0]].inputs|
  {
    TakeNext(nodes, t, done, outdegrees, q);
    assert Live(nodes, varList, q[0]);
  }

  /** A leaf taken off the queue: nothing to propagate. */
  lemma LeafStep(nodes: seq<Var>, varList: seq<nat>, t: nat, before: seq<Op>, ops: seq<Op>, done: set<nat>,
                 log: seq<Step>, gradients: map<nat, Vector>, outdegrees: map<nat, int>, q: seq<nat>)
    requires Scheduled(nodes, varList, t, before, ops, done, log, gradients, outdegrees, q) && |q| > 0
    requires q[0] < |nodes| && nodes[q[0]].operation.None?
    ensures Scheduled(nodes, varList, t, before, ops, done + {q[0]},
      log + [Step(q[0], GetOr(gradients, q[0]), [])], gradients, outdegrees, q[1..])
  {
    var s := Sched(gradients, outdegrees, q[1..]);
    assert nodes[q[0]].inputs == [];
    PropagatedNone(s);
    Stepped(nodes, t, done, log, gradients, outdegrees, q, [], s);
    OwnedLeaf(nodes, varList, t, before, ops, done, log, Step(q[0], GetOr(gradients, q[0]), []));
  }

  /**
   * A derived node taken off the queue: its operator ran its backward pass
   * b on the gradient the node holds, and the adjoints were propagated.
   */
  lemma DerivedStep(nodes: seq<Var>, varList: seq<nat>, t: nat, before: seq<Op>, ops: seq<Op>, done: set<nat>,
                    log: seq<Step>, gradients: map<nat, Vector>, outdegrees: map<nat, int>, q: seq<nat>,
                    b: Backwarded, s: Sched)
    requires Scheduled(nodes, varList, t, before, ops, done, log, gradients, outdegrees, q) && |q| > 0
    requires q[0] < |nodes| && nodes[q[0]].operation.Some? && nodes[q[0]].operation.value < |ops|
    requires GradSpec(ops[nodes[q[0]].operation.value], GetOr(gradients, q[0])) == Ok(b)
    requires |b.adjoints| == |nodes[q[0]].inputs|
    requires Propagated(Sched(gradients, outdegrees, q[1..]), nodes[q[0]].inputs, b.adjoints, s)
    ensures Scheduled(nodes, varList, t, before, ops[nodes[q[0]].operation.value := b.state], done + {q[0]},
      log + [Step(q[0], GetOr(gradients, q[0]), b.adjoints)], s.gradients, s.outdegrees, s.queue)
  {
    Stepped(nodes, t, done, log, gradients, outdegrees, q, b.adjoints, s);
    OwnedDerived(nodes, varList, t, before, ops, done, log, Step(q[0], GetOr(gradients, q[0]), b.adjoints), b);
  }

  /** A leaf's step leaves every operator as it was. */
  lemma OwnedLeaf(nodes: seq<Var>, varList: seq<nat>, t: nat, before: seq<Op>, ops: seq<Op>, done: set<nat>,
                  log: seq<Step>, step: Step)
    requires Owned(nodes, varList, t, before, ops, done, log)
    requires step.node < |nodes| && nodes[step.node].operation.None? && step.adjoints == []
    ensures Owned(nodes, varList, t, before, ops, done + {step.node}, log + [step])
  {
    var log' := log + [step];
    assert forall k :: 0 <= k < |log| ==> log'[k] == log[k];
  }

  /** A derived node's step changes its own operator only, by its backward pass. */
  lemma OwnedDerived(nodes: seq<Var>, varList: seq<nat>, t: nat, before: seq<Op>, ops: seq<Op>, done: set<nat>,
                     log: seq<Step>, step: Step, b: Backwarded)
    requires Owned(nodes, varList, t, before, ops, done, log)
    requires done <= Reach(nodes, t) && LogNodes(log) == done
    requires step.node in Reach(nodes, t) && step.node !in done && step.node < |nodes|
    requires nodes[step.node].operation.Some? && nodes[step.node].operation.value < |ops|
    requires GradSpec(ops[nodes[step.node].operation.value], step.received) == Ok(b) && step.adjoints == b.adjoints
    ensures Owned(nodes, varList, t, before, ops[nodes[step.node].operation.value := b.state], done + {step.node}, log + [step])
  {
    var c, j := step.node, nodes[step.node].operation.value;
    assert Live(nodes, varList, c);
    GradKeepsArity(ops[j], step.received);
    UpdateKeepsWellFormed(nodes, varList, ops, j, b.state);
    var ops', log' := ops[j := b.state], log + [step];
    forall k | 0 <= k < |log'| && log'[k].node < |nodes| ensures ByOperator(before, ops', nodes[log'[k].node], log'[k]) {
      if k < |log| {
        var n := log[k].node;
        assert log'[k] == log[k] && n in LogNodes(log);
        if nodes[n].operation.Some? {
          assert Live(nodes, varList, n);
        }
      }
    }
  }

  /** What one step does to the log, the counters and the gradients, whatever the node. */
  lemma Stepped(nodes: seq<Var>, t: nat, done: set<nat>, log: seq<Step>, gradients: map<nat, Vector>,
                outdegrees: map<nat, int>, q: seq<nat>, adj: seq<Vector>, s: Sched)
    requires Pass(nodes, t, done, log, gradients, outdegrees, q) && |q| > 0
    requires q[0] < |nodes| && |adj| == |nodes[q[0]].inputs|
    requires Propagated(Sched(gradients, outdegrees, q[1..]), nodes[q[0]].inputs, adj, s)
    ensures q[0] in Reach(nodes, t) && q[0] !in done
    ensures Pass(nodes, t, done + {q[0]}, log + [Step(q[0], GetOr(gradients, q[0]), adj)], s.gradients, s.outdegrees, s.queue)
  {
    TakeNext(nodes, t, done, outdegrees, q);
    DoneNotInputs(nodes, t, done, outdegrees, q, q[0]);
    StepCounters(nodes, t, done, gradients, outdegrees, q, adj, s);
    StepLog(nodes, log, done, Step(q[0], GetOr(gradients, q[0]), adj));
    StepGathered(nodes, t, log, done, gradients, outdegrees, q, adj, s);
  }

  /** What the node at the head of the queue may count on, from the counters alone. */
  lemma TakeNext(nodes: seq<Var>, t: nat, done: set<nat>, outdegrees: map<nat, int>, q: seq<nat>)
    requires Ordered(nodes) && t < |nodes|
    requires Counters(nodes, Reach(nodes, t), done, outdegrees, q) && |q| > 0
    ensures q[0] in Reach(nodes, t) && q[0] !in done && q[0] !in q[1..]
    ensures forall n :: n in nodes[q[0]].inputs ==>
      n in Reach(nodes, t) && n < q[0] && outdegrees[n] >= multiset(nodes[q[0]].inputs)[n] && n !in q[1..]
    ensures forall n :: n in Reach(nodes, t) ==>
      outdegrees[n] - multiset(nodes[q[0]].inputs)[n] == Uses(nodes, Reach(nodes, t) - (done + {q[0]}), n)
  {
    var r := Reach(nodes, t);
    var c := q[0];
    assert q == [c] + q[1..];
    DistinctHead(q);
    assert r - done == (r - (done + {c})) + {c};
    forall n | n in r
      ensures outdegrees[n] - multiset(nodes[c].inputs)[n] == Uses(nodes, r - (done + {c}), n)
    {
      UsesAdd(nodes, r - (done + {c}), c, n);
    }
    forall n | n in nodes[c].inputs
      ensures n in r && n !in q[1..]
    {
      ReachClosed(nodes, t, c, n);
      assert multiset(nodes[c].inputs)[n] > 0;
    }
  }

  /** A node already taken off the queue is no input of the node at its head. */
  lemma DoneNotInputs(nodes: seq<Var>, t: nat, done: set<nat>, outdegrees: map<nat, int>, q: seq<nat>, c: nat)
    requires Ordered(nodes) && t < |nodes| && done <= Reach(nodes, t)
    requires Counters(nodes, Reach(nodes, t), done, outdegrees, q) && |q| > 0 && c == q[0] && c < |nodes|
    ensures forall m :: m in done ==> m !in nodes[c].inputs
  {
    var r := Reach(nodes, t);
    assert q[0] in q;
    assert c in r - done;
    forall m | m in done ensures m !in nodes[c].inputs {
      UsesZero(nodes, r - done, m);
    }
  }

  /** The counters after a step: the node's consumer edges counted off, the inputs that wait for nothing more queued. */
  lemma StepCounters(nodes: seq<Var>, t: nat, done: set<nat>, gradients: map<nat, Vector>, outdegrees: map<nat, int>,
                     q: seq<nat>, adj: seq<Vector>, s: Sched)
    requires Ordered(nodes) && t < |nodes| && done <= Reach(nodes, t) && gradients.Keys <= Reach(nodes, t)
    requires Counters(nodes, Reach(nodes, t), done, outdegrees, q) && |q| > 0 && q[0] < |nodes|
    requires |adj| == |nodes[q[0]].inputs|
    requires Propagated(Sched(gradients, outdegrees, q[1..]), nodes[q[0]].inputs, adj, s)
    ensures Counters(nodes, Reach(nodes, t), done + {q[0]}, s.outdegrees, s.queue)
    ensures s.gradients.Keys <= Reach(nodes, t)
  {
    TakeNext(nodes, t, done, outdegrees, q);
    var q1, suffix := q[1..], s.queue[|q| - 1..];
    assert s.queue == q1 + suffix;
    assert q == [q[0]] + q1;
    StepQueue(nodes, t, done, outdegrees, q, s.outdegrees, suffix);
    StepZero(nodes, t, done, outdegrees, q, s.outdegrees, suffix);
  }

  /** The queue after a step: the rest of the old queue, then the newly freed inputs, none twice. */
  lemma StepQueue(nodes: seq<Var>, t: nat, done: set<nat>, outdegrees: map<nat, int>, q: seq<nat>,
                  od: map<nat, int>, suffix: seq<nat>)
    requires Ordered(nodes) && t < |nodes| && done <= Reach(nodes, t)
    requires Counters(nodes, Reach(nodes, t), done, outdegrees, q) && |q| > 0 && q[0] < |nodes|
    requires forall n :: n in nodes[q[0]].inputs ==>
      n in Reach(nodes, t) && n < q[0] && outdegrees[n] >= multiset(nodes[q[0]].inputs)[n] && n !in q[1..]
    requires Distinct(suffix) && forall n :: n in suffix ==> n in nodes[q[0]].inputs
    ensures Distinct(q[1..] + suffix)
    ensures forall n :: n in q[1..] + suffix ==> n in Reach(nodes, t) && n !in done + {q[0]}
  {
    var q1 := q[1..];
    DistinctTail(q);
    DistinctHead(q);
    DistinctAppend(q1, suffix);
    assert q == [q[0]] + q1;
    forall n | n in q1 + suffix ensures n in Reach(nodes, t) && n !in done + {q[0]} {
      if n !in q1 {
        assert n in suffix && multiset(nodes[q[0]].inputs)[n] > 0;
      }
    }
  }

  /** The counters after a step: each equals the remaining uses, and is 0 exactly for processed or queued nodes. */
  lemma StepZero(nodes: seq<Var>, t: nat, done: set<nat>, outdegrees: map<nat, int>, q: seq<nat>,
                 od: map<nat, int>, suffix: seq<nat>)
    requires Ordered(nodes) && t < |nodes|
    requires Counters(nodes, Reach(nodes, t), done, outdegrees, q) && |q| > 0 && q[0] < |nodes|
    requires forall n :: n in nodes[q[0]].inputs ==>
      n in Reach(nodes, t) && n < q[0] && outdegrees[n] >= multiset(nodes[q[0]].inputs)[n] && n !in q[1..]
    requires forall n :: n in Reach(nodes, t) ==>
      outdegrees[n] - multiset(nodes[q[0]].inputs)[n] == Uses(nodes, Reach(nodes, t) - (done + {q[0]}), n)
    requires od.Keys == outdegrees.Keys
    requires forall n :: n in outdegrees ==> od[n] == outdegrees[n] - multiset(nodes[q[0]].inputs)[n]
    requires forall n :: n in suffix <==> n in nodes[q[0]].inputs && n in od && od[n] == 0
    ensures od.Keys == Reach(nodes, t)
    ensures forall n :: n in Reach(nodes, t) ==> od[n] == Uses(nodes, Reach(nodes, t) - (done + {q[0]}), n)
    ensures forall n :: n in Reach(nodes, t) ==> (od[n] == 0 <==> n in done + {q[0]} || n in q[1..] + suffix)
  {
    var c, ins, q1 := q[0], nodes[q[0]].inputs, q[1..];
    assert q == [c] + q1;
    forall n | n in Reach(nodes, t) ensures od[n] == 0 <==> n in done + {c} || n in q1 + suffix {
      assert n in q1 + suffix <==> n in q1 || n in suffix;
      if n in ins {
        assert n !in q1 && n != c && n !in done;
      } else {
        assert multiset(ins)[n] == 0;
      }
    }
  }

  /** The log after a step: the node is new to it, and none of the logged nodes is its input. */
  lemma StepLog(nodes: seq<Var>, log: seq<Step>, done: set<nat>, step: Step)
    requires Ordered(nodes) && Logged(nodes, log) && Once(log) && LogNodes(log) == done && InOrder(nodes, log)
    requires step.node < |nodes| && |step.adjoints| == |nodes[step.node].inputs| && step.node !in done
    requires forall m :: m in done ==> m !in nodes[step.node].inputs
    ensures Logged(nodes, log + [step]) && Once(log + [step]) && LogNodes(log + [step]) == done + {step.node}
    ensures InOrder(nodes, log + [step])
  {
    var log' := log + [step];
    LogNodesNext(log, step);
    ContribsNext(nodes, log, step, step.node);
    assert forall k :: 0 <= k < |log| ==> log'[k] == log[k];
    forall k | 0 <= k < |log| ensures log'[k].node != step.node {
      assert log[k].node in LogNodes(log);
    }
    forall k, k' | 0 <= k < |log'| && 0 <= k' < |log'| && log'[k'].node < |nodes| && log'[k].node in nodes[log'[k'].node].inputs
      ensures k' < k
    {
      if k' == |log| {
        assert false;
      } else if k < |log| {
        assert log[k].node in nodes[log[k'].node].inputs;
      }
    }
  }

  /** The gradients after a step: the node's adjoints accumulated; the logged nodes, the node itself included, untouched. */
  lemma StepGathered(nodes: seq<Var>, t: nat, log: seq<Step>, done: set<nat>, gradients: map<nat, Vector>,
                     outdegrees: map<nat, int>, q: seq<nat>, adj: seq<Vector>, s: Sched)
    requires Ordered(nodes) && |q| > 0 && q[0] < |nodes| && |adj| == |nodes[q[0]].inputs|
    requires Logged(nodes, log) && LogNodes(log) == done
    requires forall m :: m in done ==> m !in nodes[q[0]].inputs
    requires Gathered(nodes, t, log, gradients)
    requires Propagated(Sched(gradients, outdegrees, q[1..]), nodes[q[0]].inputs, adj, s)
    ensures Gathered(nodes, t, log + [Step(q[0], GetOr(gradients, q[0]), adj)], s.gradients)
  {
    var c, ins := q[0], nodes[q[0]].inputs;
    var step := Step(c, GetOr(gradients, c), adj);
    var log' := log + [step];
    ContribsNext(nodes, log, step, c);
    forall n ensures Fold(Seed(t, n), Contribs(nodes, log', n)) == Ok(GetOr(s.gradients, n)) {
      GatheredAt(nodes, t, log, step, gradients, s.gradients, n);
    }
    StepReceived(nodes, log, gradients, outdegrees, q, adj, s);
  }

  /** What the logged steps received is still their nodes' gradient once the head's adjoints are propagated. */
  lemma StepReceived(nodes: seq<Var>, log: seq<Step>, gradients: map<nat, Vector>,
                     outdegrees: map<nat, int>, q: seq<nat>, adj: seq<Vector>, s: Sched)
    requires Ordered(nodes) && |q| > 0 && q[0] < |nodes| && |adj| == |nodes[q[0]].inputs|
    requires forall m :: m in LogNodes(log) ==> m !in nodes[q[0]].inputs
    requires forall k :: 0 <= k < |log| ==> log[k].received == GetOr(gradients, log[k].node)
    requires Propagated(Sched(gradients, outdegrees, q[1..]), nodes[q[0]].inputs, adj, s)
    ensures forall k :: 0 <= k < |log| + 1 ==>
      (log + [Step(q[0], GetOr(gradients, q[0]), adj)])[k].received == GetOr(s.gradients, (log + [Step(q[0], GetOr(gradients, q[0]), adj)])[k].node)
  {
    var ins := nodes[q[0]].inputs;
    var log' := log + [Step(q[0], GetOr(gradients, q[0]), adj)];
    forall k | 0 <= k < |log'| ensures log'[k].received == GetOr(s.gradients, log'[k].node) {
      var n := log'[k].node;
      if k < |log| {
        assert log'[k] == log[k] && n in LogNodes(log);
      }
      assert n !in ins;
      Untouched(gradients, s.gradients, ins, adj, n);
    }
  }

  /** One node's gradient after a step: its earlier contributions, then the step's. */
  lemma GatheredAt(nodes: seq<Var>, t: nat, log: seq<Step>, step: Step, g: map<nat, Vector>, g': map<nat, Vector>, n: nat)
    requires Logged(nodes, log) && step.node < |nodes| && |step.adjoints| == |nodes[step.node].inputs|
    requires Fold(Seed(t, n), Contribs(nodes, log, n)) == Ok(GetOr(g, n))
    requires Fold(GetOr(g, n), Picks(nodes[step.node].inputs, step.adjoints, n)) == Ok(GetOr(g', n))
    ensures Logged(nodes, log + [step])
    ensures Fold(Seed(t, n), Contribs(nodes, log + [step], n)) == Ok(GetOr(g', n))
  {
    ContribsNext(nodes, log, step, n);
    FoldAppend(Seed(t, n), Contribs(nodes, log, n), Picks(nodes[step.node].inputs, step.adjoints, n));
  }

  /** A node that is no input of the step keeps its gradient. */
  lemma Untouched(g: map<nat, Vector>, g': map<nat, Vector>, ins: seq<nat>, adj: seq<Vector>, n: nat)
    requires |ins| == |adj| && n !in ins
    requires Fold(GetOr(g, n), Picks(ins, adj, n)) == Ok(GetOr(g', n))
    ensures GetOr(g', n) == GetOr(g, n)
  {
    PicksNone(ins, adj, n);
  }

  /** When the queue runs empty, every node the target depends on has been taken off it. */
  lemma AllDone(nodes: seq<Var>, t: nat, done: set<nat>, outdegrees: map<nat, int>)
    requires Ordered(nodes) && t < |nodes|
    requires Counters(nodes, Reach(nodes, t), done, outdegrees, []) && done <= Reach(nodes, t)
    ensures done == Reach(nodes, t)
  {
    var r := Reach(nodes, t);
    if r - done != {} {
      var m := Largest(r - done);
      // m waits for a consumer, which would be a larger node not yet done
      UsesZero(nodes, r - done, m);
      assert false;
    } else {
      forall x | x in r ensures x in done {
        assert x !in r - done;
      }
    }
  }

  /** The state compute_gradients ends in, once the queue has run empty. */
  lemma Finished(nodes: seq<Var>, varList: seq<nat>, t: nat, before: seq<Op>, ops: seq<Op>, done: set<nat>,
                 log: seq<Step>, gradients: map<nat, Vector>, outdegrees: map<nat, int>)
    requires Scheduled(nodes, varList, t, before, ops, done, log, gradients, outdegrees, [])
    ensures WellFormed(nodes, varList, ops) && |ops| == |before|
    ensures Logged(nodes, log) && Once(log) && LogNodes(log) == Reach(nodes, t)
    ensures forall k, k' :: 0 <= k < |log| && 0 <= k' < |log| && log[k].node in nodes[log[k'].node].inputs ==> k' < k
    ensures forall n :: Fold(Seed(t, n), Contribs(nodes, log, n)) == Ok(GetOr(gradients, n))
    ensures forall k :: 0 <= k < |log| ==> log[k].received == GetOr(gradients, log[k].node)
    ensures forall n :: |Contribs(nodes, log, n)| == Uses(nodes, Reach(nodes, t), n)
    ensures forall n :: n !in Reach(nodes, t) ==> GetOr(gradients, n) == []
    ensures GetOr(gradients, t) == [1.0]
    ensures forall k :: 0 <= k < |log| ==> ByOperator(before, ops, nodes[log[k].node], log[k])
    ensures forall j :: 0 <= j < |ops| && varList[j] !in LogNodes(log) ==> ops[j] == before[j]
  {
    AllDone(nodes, t, done, outdegrees);
    forall n ensures |Contribs(nodes, log, n)| == Uses(nodes, Reach(nodes, t), n) {
      ContribsCount(nodes, log, n);
    }
    TargetUnused(nodes, t);
    assert forall k :: 0 <= k < |log| ==> log[k].node in LogNodes(log);
    ContribsNone(nodes, log, t);
  }
}

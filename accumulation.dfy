/**
 * How `compute_gradients` sums the adjoints a node receives: `add_to_vector`
 * of graph.cpp, folded over the contributions of the node's consumers in the
 * order the scheduler processes them.
 */
module Accumulation {
  import opened Wrappers
  import opened Vectors
  import opened Ops
  import opened Neuron
  import opened Arena

  /**
   * graph::add_to_vector: an empty accumulator is first resized to zeros of
   * b's length; the lengths must then agree; b is added entry by entry.
   */
  function Accumulate(a: Vector, b: Vector): (r: Result<Vector>)
    ensures r.Ok? <==> |a| == 0 || |a| == |b|
    ensures r.Fail? ==> r.failure == AssertionFailed
    ensures r.Ok? ==> |r.value| == |b|
  {
    var resized := if |a| == 0 then Zeros(|b|) else a;
    if |resized| != |b| then Fail(AssertionFailed) else Ok(Plus(resized, b))
  }

  /** The first contribution to an empty accumulator is taken as it is. */
  lemma AccumulateEmpty(b: Vector)
    ensures Accumulate([], b) == Ok(b)
  {
    assert Plus(Zeros(|b|), b) == b;
  }

  /** A non-empty accumulator gains b entry by entry and keeps its length. */
  lemma AccumulateAt(a: Vector, b: Vector, k: nat)
    requires |a| > 0 && Accumulate(a, b).Ok? && k < |a|
    ensures |Accumulate(a, b).value| == |a|
    ensures Accumulate(a, b).value[k] == a[k] + b[k]
  {
  }

  /** Accumulate the contributions cs, first to last, into a. */
  function Fold(a: Vector, cs: seq<Vector>): Result<Vector>
  {
    if cs == [] then Ok(a)
    else
      match Fold(a, cs[..|cs| - 1])
      case Fail(f) => Fail(f)
      case Ok(x) => Accumulate(x, cs[|cs| - 1])
  }

  /** Folding a concatenation folds the first part, then the second from there. */
  lemma {:induction false} FoldAppend(a: Vector, xs: seq<Vector>, ys: seq<Vector>)
    ensures Fold(a, xs + ys) ==
      match Fold(a, xs)
      case Fail(f) => Fail(f)
      case Ok(x) => Fold(x, ys)
  {
    if ys == [] {
      assert xs + ys == xs;
    } else {
      var m := |ys| - 1;
      assert (xs + ys)[..|xs + ys| - 1] == xs + ys[..m];
      FoldAppend(a, xs, ys[..m]);
    }
  }

  /** Folding one more contribution accumulates it into the fold so far. */
  lemma FoldNext(a: Vector, cs: seq<Vector>, c: Vector)
    ensures Fold(a, cs + [c]) ==
      match Fold(a, cs)
      case Fail(f) => Fail(f)
      case Ok(x) => Accumulate(x, c)
  {
    assert (cs + [c])[..|cs|] == cs;
  }

  /**
   * From an empty accumulator, contributions that all have length d add up
   * to their elementwise sum.
   */
  lemma {:induction false} FoldIsSum(cs: seq<Vector>, d: nat)
    requires |cs| > 0 && forall i :: 0 <= i < |cs| ==> |cs[i]| == d
    ensures Fold([], cs) == Ok(ElementwiseSum(cs, d))
  {
    var m := |cs| - 1;
    if m == 0 {
      AccumulateEmpty(cs[0]);
      assert cs[..m] == [];
      assert Plus(Zeros(d), cs[0]) == cs[0];
    } else {
      FoldIsSum(cs[..m], d);
      var x := ElementwiseSum(cs[..m], d);
      if d == 0 {
        assert Accumulate(x, cs[m]).value == [] == ElementwiseSum(cs, d);
      }
    }
  }

  /**
   * Starting from a non-empty vector, a fold that succeeds met only
   * contributions of that vector's length, and keeps it: one of another
   * length fails the assertion of add_to_vector.
   */
  lemma {:induction false} FoldKeepsLength(a: Vector, cs: seq<Vector>)
    requires |a| > 0 && Fold(a, cs).Ok?
    ensures |Fold(a, cs).value| == |a|
    ensures forall i :: 0 <= i < |cs| ==> |cs[i]| == |a|
  {
    if cs != [] {
      var m := |cs| - 1;
      FoldKeepsLength(a, cs[..m]);
      assert forall i :: 0 <= i < m ==> cs[..m][i] == cs[i];
    }
  }

  /** The gradient a node starts with: [1.0] for the target, empty for every other node. */
  function Seed(t: nat, n: nat): Vector
  {
    if n == t then [1.0] else []
  }

  // ---------------------------------------------------------------------------
  // The contributions of a run

  /**
   * One node taken off the scheduler's queue: the gradient it held then and
   * the adjoints its operator returned for its inputs (none for a leaf).
   */
  datatype Step = Step(node: nat, received: Vector, adjoints: seq<Vector>)

  /** Every step names a node of the arena and has one adjoint per input. */
  predicate Logged(nodes: seq<Var>, log: seq<Step>)
  {
    forall k :: 0 <= k < |log| ==>
      log[k].node < |nodes| && |log[k].adjoints| == |nodes[log[k].node].inputs|
  }

  /** No node is processed twice. */
  predicate Once(log: seq<Step>)
  {
    forall k, k' :: 0 <= k < k' < |log| ==> log[k].node != log[k'].node
  }

  ghost function LogNodes(log: seq<Step>): set<nat>
  {
    set k | 0 <= k < |log| :: log[k].node
  }

  /** The adjoints at the input positions that hold n, in position order. */
  function Picks(ins: seq<nat>, adj: seq<Vector>, n: nat): seq<Vector>
    requires |ins| == |adj|
  {
    if ins == [] then []
    else
      var m := |ins| - 1;
      Picks(ins[..m], adj[..m], n) + if ins[m] == n then [adj[m]] else []
  }

  /** Everything a run sends to n: the adjoints of its consumers, in processing order. */
  function Contribs(nodes: seq<Var>, log: seq<Step>, n: nat): seq<Vector>
    requires Logged(nodes, log)
  {
    if log == [] then []
    else
      var m := |log| - 1;
      Contribs(nodes, log[..m], n) + Picks(nodes[log[m].node].inputs, log[m].adjoints, n)
  }

  /** Logging one more step adds its node. */
  lemma LogNodesNext(log: seq<Step>, s: Step)
    ensures LogNodes(log + [s]) == LogNodes(log) + {s.node}
  {
    var log' := log + [s];
    forall x | x in LogNodes(log') ensures x in LogNodes(log) + {s.node} {
      var k :| 0 <= k < |log'| && log'[k].node == x;
      if k < |log| {
        assert log[k].node == x;
      }
    }
    forall x | x in LogNodes(log) + {s.node} ensures x in LogNodes(log') {
      if x in LogNodes(log) {
        var k :| 0 <= k < |log| && log[k].node == x;
        assert log'[k].node == x;
      } else {
        assert log'[|log|].node == x;
      }
    }
  }

  /** One contribution per position holding n. */
  lemma {:induction false} PicksCount(ins: seq<nat>, adj: seq<Vector>, n: nat)
    requires |ins| == |adj|
    ensures |Picks(ins, adj, n)| == multiset(ins)[n]
  {
    if ins != [] {
      var m := |ins| - 1;
      assert ins == ins[..m] + [ins[m]];
      PicksCount(ins[..m], adj[..m], n);
    }
  }

  /** The contributions of a split list of positions are those of the two parts. */
  lemma {:induction false} PicksSplit(ins: seq<nat>, adj: seq<Vector>, n: nat, i: nat)
    requires |ins| == |adj| && i <= |ins|
    ensures Picks(ins, adj, n) == Picks(ins[..i], adj[..i], n) + Picks(ins[i..], adj[i..], n)
  {
    if i < |ins| {
      var m := |ins| - 1;
      assert ins[..m][..i] == ins[..i] && adj[..m][..i] == adj[..i];
      assert ins[..m][i..] == ins[i..][..|ins[i..]| - 1];
      assert adj[..m][i..] == adj[i..][..|adj[i..]| - 1];
      PicksSplit(ins[..m], adj[..m], n, i);
    } else {
      assert ins[..i] == ins && adj[..i] == adj;
    }
  }

  /** Picks of one more position. */
  lemma PicksNext(ins: seq<nat>, adj: seq<Vector>, n: nat, i: nat)
    requires |ins| == |adj| && i < |ins|
    ensures Picks(ins[..i + 1], adj[..i + 1], n) ==
      Picks(ins[..i], adj[..i], n) + if ins[i] == n then [adj[i]] else []
  {
    assert ins[..i + 1][..i] == ins[..i] && adj[..i + 1][..i] == adj[..i];
  }

  /** Logging one more step adds its picks. */
  lemma ContribsNext(nodes: seq<Var>, log: seq<Step>, s: Step, n: nat)
    requires Logged(nodes, log) && s.node < |nodes| && |s.adjoints| == |nodes[s.node].inputs|
    ensures Logged(nodes, log + [s])
    ensures Contribs(nodes, log + [s], n) == Contribs(nodes, log, n) + Picks(nodes[s.node].inputs, s.adjoints, n)
  {
    assert (log + [s])[..|log|] == log;
    assert forall k :: 0 <= k < |log| ==> (log + [s])[k] == log[k];
  }

  /**
   * In a run that processes each node once, n receives one contribution per
   * input position of a processed node that holds n.
   */
  lemma {:induction false} ContribsCount(nodes: seq<Var>, log: seq<Step>, n: nat)
    requires Logged(nodes, log) && Once(log)
    ensures |Contribs(nodes, log, n)| == Uses(nodes, LogNodes(log), n)
  {
    if log == [] {
      assert LogNodes(log) == {};
      UsesZero(nodes, {}, n);
    } else {
      var m := |log| - 1;
      var s := log[m];
      assert log == log[..m] + [s];
      ContribsNext(nodes, log[..m], s, n);
      ContribsCount(nodes, log[..m], n);
      PicksCount(nodes[s.node].inputs, s.adjoints, n);
      assert LogNodes(log) == LogNodes(log[..m]) + {s.node};
      assert s.node !in LogNodes(log[..m]);
      UsesAdd(nodes, LogNodes(log[..m]), s.node, n);
    }
  }

  /** A node no processed node takes as an input receives nothing. */
  lemma {:induction false} ContribsNone(nodes: seq<Var>, log: seq<Step>, n: nat)
    requires Logged(nodes, log)
    requires forall k :: 0 <= k < |log| ==> n !in nodes[log[k].node].inputs
    ensures Contribs(nodes, log, n) == []
  {
    if log != [] {
      var m := |log| - 1;
      ContribsNone(nodes, log[..m], n);
      PicksNone(nodes[log[m].node].inputs, log[m].adjoints, n);
    }
  }

  lemma {:induction false} PicksNone(ins: seq<nat>, adj: seq<Vector>, n: nat)
    requires |ins| == |adj| && n !in ins
    ensures Picks(ins, adj, n) == []
  {
    if ins != [] {
      var m := |ins| - 1;
      PicksNone(ins[..m], adj[..m], n);
    }
  }
}

/**
 * The nodes of the computation graph (neuron.h, var.cpp). Pointers become
 * indices into the arena of nodes the graph keeps (see Engine.Graph): a
 * handle (`var::iterator`) holds the index of the node it refers to, or
 * `None` for a null pointer.
 */
module Neuron {
  import opened Wrappers
  import opened Vectors

  /** `var::iterator`: nothing but the node it refers to. */
  datatype Iterator = Iterator(reference: Option<nat>)

  /**
   * One `var` object: its value, the operator that produced it (`None` for a
   * leaf, `Some(j)` for entry j of the graph's operator list) and the nodes
   * it was computed from, in order, repetitions included.
   */
  datatype Var = Var(v: Vector, operation: Option<nat>, inputs: seq<nat>)

  /**
   * `std::hash<nn::var::iterator>`: the hash of the reference alone, under
   * whatever pointer hash the library supplies.
   */
  function Hash(it: Iterator, referenceHash: Option<nat> -> nat): nat
  {
    referenceHash(it.reference)
  }

  /**
   * Handles compare equal exactly when they refer to the same node, and
   * equal handles hash alike: a map keyed by handles is keyed by node identity.
   */
  lemma HandleIdentity(a: Iterator, b: Iterator, referenceHash: Option<nat> -> nat)
    ensures a == b <==> a.reference == b.reference
    ensures a.reference == b.reference ==> Hash(a, referenceHash) == Hash(b, referenceHash)
  {
  }

  /** The references of a list of handles, in order. */
  function ReferencesOf(incoming: seq<Iterator>): (r: seq<Option<nat>>)
    ensures |r| == |incoming|
    ensures forall i :: 0 <= i < |incoming| ==> r[i] == incoming[i].reference
  {
    if incoming == [] then []
    else ReferencesOf(incoming[..|incoming| - 1]) + [incoming[|incoming| - 1].reference]
  }

  /** The nodes non-null handles refer to, in order. */
  function Referenced(incoming: seq<Iterator>): (r: seq<nat>)
    requires forall i :: 0 <= i < |incoming| ==> incoming[i].reference.Some?
    ensures |r| == |incoming| && forall i :: 0 <= i < |r| ==> r[i] == incoming[i].reference.value
  {
    seq(|incoming|, i requires 0 <= i < |incoming| => incoming[i].reference.value)
  }

  /** The values of the nodes ins, in order (an index outside the arena reads as empty). */
  function ValuesOf(nodes: seq<Var>, ins: seq<nat>): (r: seq<Vector>)
    ensures |r| == |ins| && forall i :: 0 <= i < |r| && ins[i] < |nodes| ==> r[i] == nodes[ins[i]].v
  {
    seq(|ins|, i requires 0 <= i < |ins| => if ins[i] < |nodes| then nodes[ins[i]].v else [])
  }

  /** The values of the nodes a list of pointers refers to, or a failed assertion on a null pointer. */
  function Values(nodes: seq<Var>, ptrs: seq<Option<nat>>): (r: Result<seq<Vector>>)
    requires forall i :: 0 <= i < |ptrs| && ptrs[i].Some? ==> ptrs[i].value < |nodes|
    ensures r.Ok? <==> forall i :: 0 <= i < |ptrs| ==> ptrs[i].Some?
    ensures r.Fail? ==> r.failure == AssertionFailed
    ensures r.Ok? ==> |r.value| == |ptrs| && forall i :: 0 <= i < |ptrs| ==> r.value[i] == nodes[ptrs[i].value].v
  {
    if ptrs == [] then Ok([])
    else
      var m := |ptrs| - 1;
      match Values(nodes, ptrs[..m])
      case Fail(f) => Fail(f)
      case Ok(prefix) =>
        if ptrs[m].None? then Fail(AssertionFailed) else Ok(prefix + [nodes[ptrs[m].value].v])
  }

  /** The loop of the `var` constructor that collects `raw_in`, the references of the incoming handles. */
  method References(incoming: seq<Iterator>) returns (rawIn: seq<Option<nat>>)
    ensures rawIn == ReferencesOf(incoming)
  {
    rawIn := [];
    var i := 0;
    while i < |incoming|
      invariant 0 <= i <= |incoming|
      invariant rawIn == ReferencesOf(incoming[..i])
    {
      assert incoming[..i + 1][..i] == incoming[..i];
      rawIn := rawIn + [incoming[i].reference];
      i := i + 1;
    }
    assert incoming[..i] == incoming;
  }

  /**
   * `dereference_reference_vec`: the value of each pointed-to node, in order;
   * a null pointer fails the assertion. The nodes are only read.
   */
  method Dereference(nodes: seq<Var>, x: seq<Option<nat>>) returns (result: Result<seq<Vector>>)
    requires forall i :: 0 <= i < |x| && x[i].Some? ==> x[i].value < |nodes|
    ensures result == Values(nodes, x)
  {
    var values := [];
    var i := 0;
    while i < |x|
      invariant 0 <= i <= |x|
      invariant Values(nodes, x[..i]) == Ok(values)
    {
      assert x[..i + 1][..i] == x[..i];
      if x[i].None? {
        return Fail(AssertionFailed);
      }
      values := values + [nodes[x[i].value].v];
      i := i + 1;
    }
    assert x[..i] == x;
    result := Ok(values);
  }
}

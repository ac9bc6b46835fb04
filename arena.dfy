/**
 * The arena of nodes as a graph: which nodes a target depends on, and how
 * many input edges of a set of nodes point at a given node. `add_op` only
 * ever takes existing nodes as inputs, so every input is older (has a
 * smaller index) than the node that uses it, and the graph is acyclic.
 */
module Arena {
  import opened Wrappers
  import opened Ops
  import opened Neuron

  /** Every input of a node was created before it. */
  predicate Ordered(nodes: seq<Var>)
  {
    forall h, i :: 0 <= h < |nodes| && i in nodes[h].inputs ==> i < h
  }

  /**
   * A node is alive while its storage has not been released: a leaf belongs
   * to the client and stays; a derived node lives while `var_list` still
   * holds it at the slot of its operator.
   */
  predicate Live(nodes: seq<Var>, varList: seq<nat>, h: nat)
  {
    h < |nodes| &&
    match nodes[h].operation
    case None => true
    case Some(j) => j < |varList| && varList[j] == h
  }

  /**
   * The invariant of a graph: nodes are ordered, `var_list` and `op_list`
   * run in step and each derived node in them names its own slot, leaves
   * have no inputs, a live derived node's operator returns one adjoint per
   * input, and the inputs of a live node are alive.
   */
  predicate WellFormed(nodes: seq<Var>, varList: seq<nat>, opList: seq<Op>)
  {
    Ordered(nodes) &&
    |varList| == |opList| &&
    (forall j :: 0 <= j < |varList| ==> varList[j] < |nodes| && nodes[varList[j]].operation == Some(j)) &&
    (forall h :: 0 <= h < |nodes| && nodes[h].operation.None? ==> nodes[h].inputs == []) &&
    (forall h :: 0 <= h < |nodes| && Live(nodes, varList, h) && nodes[h].operation.Some? ==>
      GradCount(opList[nodes[h].operation.value]) == |nodes[h].inputs|) &&
    (forall h, i :: 0 <= h < |nodes| && Live(nodes, varList, h) && i in nodes[h].inputs ==> Live(nodes, varList, i))
  }

  // ---------------------------------------------------------------------------
  // Reachability through input edges

  /** n is the target t, or an input of a node t depends on. */
  ghost predicate InReach(nodes: seq<Var>, t: nat, n: nat)
    requires t < |nodes|
    decreases t - n
  {
    n <= t &&
    (n == t || exists c :: n < c <= t && n in nodes[c].inputs && InReach(nodes, t, c))
  }

  /** The nodes t depends on, t included: what `find_outdegrees` visits. */
  ghost function Reach(nodes: seq<Var>, t: nat): (r: set<nat>)
    requires t < |nodes|
    ensures t in r
    ensures forall n :: n in r ==> n <= t
  {
    set n: nat | n <= t && InReach(nodes, t, n)
  }

  /** Reach is closed under inputs. */
  lemma ReachClosed(nodes: seq<Var>, t: nat, c: nat, i: nat)
    requires Ordered(nodes) && t < |nodes|
    requires c in Reach(nodes, t) && i in nodes[c].inputs
    ensures i in Reach(nodes, t)
  {
    assert i < c;
    assert InReach(nodes, t, c);
    assert InReach(nodes, t, i);
  }

  /** Every node of Reach other than t is an input of another node of Reach. */
  lemma ReachConsumed(nodes: seq<Var>, t: nat, n: nat) returns (c: nat)
    requires t < |nodes|
    requires n in Reach(nodes, t) && n != t
    ensures c in Reach(nodes, t) && n < c && n in nodes[c].inputs
  {
    assert InReach(nodes, t, n);
    c :| n < c <= t && n in nodes[c].inputs && InReach(nodes, t, c);
  }

  /** Reach is the least set that holds t and is closed under inputs. */
  lemma ReachLeast(nodes: seq<Var>, t: nat, s: set<nat>)
    requires t < |nodes| && t in s
    requires forall c, i :: c in s && c < |nodes| && i in nodes[c].inputs ==> i in s
    ensures Reach(nodes, t) <= s
  {
    forall n | n in Reach(nodes, t) ensures n in s {
      InReachIn(nodes, t, s, n);
    }
  }

  lemma {:induction false} InReachIn(nodes: seq<Var>, t: nat, s: set<nat>, n: nat)
    requires t < |nodes| && t in s
    requires forall c, i :: c in s && c < |nodes| && i in nodes[c].inputs ==> i in s
    requires InReach(nodes, t, n)
    ensures n in s
    decreases t - n
  {
    if n != t {
      var c :| n < c <= t && n in nodes[c].inputs && InReach(nodes, t, c);
      InReachIn(nodes, t, s, c);
    }
  }

  /** No node t depends on takes t itself as an input. */
  lemma TargetUnused(nodes: seq<Var>, t: nat)
    requires Ordered(nodes) && t < |nodes|
    ensures forall c :: c in Reach(nodes, t) ==> t !in nodes[c].inputs
  {
  }

  /** A live node depends only on live nodes. */
  lemma ReachLive(nodes: seq<Var>, varList: seq<nat>, opList: seq<Op>, t: nat)
    requires WellFormed(nodes, varList, opList) && Live(nodes, varList, t)
    ensures forall n :: n in Reach(nodes, t) ==> Live(nodes, varList, n)
  {
    forall n | n in Reach(nodes, t) ensures Live(nodes, varList, n) {
      InReachLive(nodes, varList, opList, t, n);
    }
  }

  lemma {:induction false} InReachLive(nodes: seq<Var>, varList: seq<nat>, opList: seq<Op>, t: nat, n: nat)
    requires WellFormed(nodes, varList, opList) && Live(nodes, varList, t)
    requires InReach(nodes, t, n)
    ensures Live(nodes, varList, n)
    decreases t - n
  {
    if n != t {
      var c :| n < c <= t && n in nodes[c].inputs && InReach(nodes, t, c);
      InReachLive(nodes, varList, opList, t, c);
    }
  }

  // ---------------------------------------------------------------------------
  // Counting input edges

  /** The number of input positions, over the nodes of s below k, that hold n. */
  function UsesBelow(nodes: seq<Var>, s: set<nat>, n: nat, k: nat): nat
    requires k <= |nodes|
  {
    if k == 0 then 0
    else UsesBelow(nodes, s, n, k - 1) + if k - 1 in s then multiset(nodes[k - 1].inputs)[n] else 0
  }

  /** The number of (consumer in s, input position) pairs whose input is n. */
  function Uses(nodes: seq<Var>, s: set<nat>, n: nat): nat
  {
    UsesBelow(nodes, s, n, |nodes|)
  }

  /** Adding one consumer adds its occurrences of n. */
  lemma UsesAdd(nodes: seq<Var>, s: set<nat>, c: nat, n: nat)
    requires c < |nodes| && c !in s
    ensures Uses(nodes, s + {c}, n) == Uses(nodes, s, n) + multiset(nodes[c].inputs)[n]
  {
    UsesBelowAdd(nodes, s, c, n, |nodes|);
  }

  lemma {:induction false} UsesBelowAdd(nodes: seq<Var>, s: set<nat>, c: nat, n: nat, k: nat)
    requires k <= |nodes| && c !in s
    ensures UsesBelow(nodes, s + {c}, n, k) ==
      UsesBelow(nodes, s, n, k) + if c < k then multiset(nodes[c].inputs)[n] else 0
  {
    if k > 0 {
      UsesBelowAdd(nodes, s, c, n, k - 1);
    }
  }

  /** n has no uses in s exactly when no node of s takes it as an input. */
  lemma UsesZero(nodes: seq<Var>, s: set<nat>, n: nat)
    ensures Uses(nodes, s, n) == 0 <==> forall c :: c in s && c < |nodes| ==> n !in nodes[c].inputs
  {
    UsesBelowZero(nodes, s, n, |nodes|);
  }

  lemma {:induction false} UsesBelowZero(nodes: seq<Var>, s: set<nat>, n: nat, k: nat)
    requires k <= |nodes|
    ensures UsesBelow(nodes, s, n, k) == 0 <==> forall c :: c in s && c < k ==> n !in nodes[c].inputs
  {
    if k > 0 {
      UsesBelowZero(nodes, s, n, k - 1);
      if k - 1 in s {
        assert n in nodes[k - 1].inputs <==> multiset(nodes[k - 1].inputs)[n] > 0;
      }
    }
  }

  /** A nonempty finite set of naturals has a largest element. */
  lemma Largest(s: set<nat>) returns (m: nat)
    requires s != {}
    ensures m in s && forall n :: n in s ==> n <= m
  {
    var x :| x in s;
    if s == {x} {
      m := x;
    } else {
      var r := Largest(s - {x});
      m := if r > x then r else x;
      forall n | n in s ensures n <= m {
        if n != x {
          assert n in s - {x};
        }
      }
    }
  }
}

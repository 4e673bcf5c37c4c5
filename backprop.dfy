/**
 * `Value.backward` (grad_eng.py:125-151) as a specification on values: seed the
 * root's gradient with 1, then run the backward step of every node of the
 * topological order, last first. A step that raises stops the pass, leaving the
 * gradients the earlier steps wrote.
 */
module Backprop {
  import opened Values
  import opened Chain
  import opened Topo

  /** The gradients after a pass, and whether it ran to the end (false: an exception stopped it). */
  datatype Run = Run(grad: seq<real>, ok: bool)

  ghost predicate InArena(nodes: seq<Node>, order: seq<Handle>)
  {
    forall k :: 0 <= k < |order| ==> order[k] < |nodes|
  }

  /** `for v in reversed(order): v._backward()`. */
  ghost function Replay(nodes: seq<Node>, g: seq<real>, order: seq<Handle>): (r: Run)
    requires WellFormed(nodes) && |g| == |nodes| && InArena(nodes, order)
    ensures |r.grad| == |g|
    decreases |order|
  {
    if order == [] then Run(g, true)
    else
      var h := order[|order| - 1];
      var st := Step(nodes, g, h);
      if st.None? then Run(g, false) else Replay(nodes, st.value, order[..|order| - 1])
  }

  /** Replaying a prefix of an order: its last node steps first, then the rest follows. */
  lemma ReplayUnfold(nodes: seq<Node>, g: seq<real>, order: seq<Handle>, i: nat)
    requires WellFormed(nodes) && |g| == |nodes| && InArena(nodes, order) && 0 < i <= |order|
    ensures InArena(nodes, order[..i]) && InArena(nodes, order[..i - 1])
    ensures var st := Step(nodes, g, order[i - 1]);
            Replay(nodes, g, order[..i]) == if st.None? then Run(g, false) else Replay(nodes, st.value, order[..i - 1])
  {
    assert order[..i][..i - 1] == order[..i - 1];
  }

  /** `root.backward()` on gradients g: the root's gradient is set (not added) to 1 first. */
  ghost function BackwardSpec(nodes: seq<Node>, g: seq<real>, root: Handle): (r: Run)
    requires WellFormed(nodes) && |g| == |nodes| && root < |nodes|
    ensures |r.grad| == |g|
  {
    WellFormedAcyclic(nodes);
    Replay(nodes, g[root := 1.0], TopoOrder(nodes, root))
  }

  /** `root.backward()` once the order and the seeded gradients are known. */
  lemma BackwardFrom(nodes: seq<Node>, g: seq<real>, root: Handle, order: seq<Handle>, seeded: seq<real>, r: Run)
    requires WellFormed(nodes) && Acyclic(nodes) && |g| == |nodes| && root < |nodes|
    requires order == TopoOrder(nodes, root) && seeded == g[root := 1.0]
    requires InArena(nodes, order) && Replay(nodes, seeded, order) == r
    ensures BackwardSpec(nodes, g, root) == r
  {
  }

  /** No step in the order raises. */
  ghost predicate NoFailure(nodes: seq<Node>, order: seq<Handle>)
    requires InArena(nodes, order)
  {
    forall k :: 0 <= k < |order| ==> !StepFails(nodes, order[k])
  }

  /** No node of the order is a softmax output, so every step is a single-output chain-rule step. */
  ghost predicate SingleOutput(nodes: seq<Node>, order: seq<Handle>)
    requires InArena(nodes, order)
  {
    forall k :: 0 <= k < |order| ==> !nodes[order[k]].op.Softmax?
  }

  /** Every parent of an element of the order that the order holds comes before it. */
  ghost predicate ParentsFirst(nodes: seq<Node>, order: seq<Handle>)
    requires InArena(nodes, order)
  {
    forall i, j :: 0 <= i < |order| && 0 <= j < |order| && order[j] in Parents(nodes[order[i]].op) ==> j < i
  }

  /** A pass completes exactly when none of its steps is a failing `x ** 0` step at x == 0. */
  lemma {:induction false} ReplayOk(nodes: seq<Node>, g: seq<real>, order: seq<Handle>)
    requires WellFormed(nodes) && |g| == |nodes| && InArena(nodes, order)
    ensures Replay(nodes, g, order).ok <==> NoFailure(nodes, order)
    decreases |order|
  {
    if order != [] {
      var n := |order| - 1;
      var rest := order[..n];
      assert forall k :: 0 <= k < n ==> rest[k] == order[k];
      var st := Step(nodes, g, order[n]);
      if st.Some? {
        ReplayOk(nodes, st.value, rest);
      }
    }
  }

  /** A node that no step of the order writes into keeps its gradient. */
  lemma {:induction false} ReplayFrame(nodes: seq<Node>, g: seq<real>, order: seq<Handle>, u: Handle)
    requires WellFormed(nodes) && |g| == |nodes| && InArena(nodes, order) && u < |g|
    requires forall k :: 0 <= k < |order| ==> u !in Writes(nodes[order[k]].op)
    ensures Replay(nodes, g, order).grad[u] == g[u]
    decreases |order|
  {
    if order != [] {
      var n := |order| - 1;
      var rest := order[..n];
      assert forall k :: 0 <= k < n ==> rest[k] == order[k];
      var st := Step(nodes, g, order[n]);
      if st.Some? {
        ReplayFrame(nodes, st.value, rest, u);
      }
    }
  }

  /**
   * Sum over positions k < m of the order of G[order[k]] times the local
   * derivative of node order[k] with respect to u: what the consumers of u
   * among the first m nodes of the order send back to u.
   */
  ghost function Adjoint(nodes: seq<Node>, G: seq<real>, order: seq<Handle>, u: Handle, m: nat): real
    requires WellFormed(nodes) && |G| == |nodes| && InArena(nodes, order) && SingleOutput(nodes, order)
    requires m <= |order|
  {
    if m == 0 then 0.0
    else Adjoint(nodes, G, order, u, m - 1) + Share(nodes, G[order[m - 1]], order[m - 1], u)
  }

  /** The sum over the first m positions only looks at those positions. */
  lemma {:induction false} AdjointPrefix(nodes: seq<Node>, G: seq<real>, order: seq<Handle>, u: Handle, m: nat)
    requires WellFormed(nodes) && |G| == |nodes| && InArena(nodes, order) && SingleOutput(nodes, order)
    requires m < |order|
    ensures InArena(nodes, order[..|order| - 1]) && SingleOutput(nodes, order[..|order| - 1])
    ensures m <= |order| - 1 ==> Adjoint(nodes, G, order[..|order| - 1], u, m) == Adjoint(nodes, G, order, u, m)
    decreases m
  {
    var rest := order[..|order| - 1];
    assert forall k :: 0 <= k < |rest| ==> rest[k] == order[k];
    if 0 < m <= |rest| {
      AdjointPrefix(nodes, G, order, u, m - 1);
    }
  }

  /** A node that is a parent of none of the order's nodes receives nothing. */
  lemma {:induction false} AdjointNone(nodes: seq<Node>, G: seq<real>, order: seq<Handle>, u: Handle, m: nat)
    requires WellFormed(nodes) && |G| == |nodes| && InArena(nodes, order) && SingleOutput(nodes, order)
    requires m <= |order|
    requires forall k :: 0 <= k < |order| ==> u !in Parents(nodes[order[k]].op)
    ensures Adjoint(nodes, G, order, u, m) == 0.0
    decreases m
  {
    if m > 0 {
      AdjointNone(nodes, G, order, u, m - 1);
    }
  }

  /** When the last node of the order runs, no step still to run writes into it, so its gradient is final. */
  lemma LastIsFinal(nodes: seq<Node>, g: seq<real>, order: seq<Handle>)
    requires WellFormed(nodes) && |g| == |nodes|
    requires InArena(nodes, order) && SingleOutput(nodes, order) && ParentsFirst(nodes, order) && order != []
    ensures var n := |order| - 1;
            InArena(nodes, order[..n]) && Replay(nodes, g, order[..n]).grad[order[n]] == g[order[n]]
  {
    var n := |order| - 1;
    var rest := order[..n];
    forall k | 0 <= k < n ensures order[n] !in Writes(nodes[rest[k]].op) {
      assert rest[k] == order[k];
    }
    ReplayFrame(nodes, g, rest, order[n]);
  }

  /** Unfolds the sum once, at the last node h of the order. */
  lemma AdjointLast(nodes: seq<Node>, G: seq<real>, order: seq<Handle>, u: Handle, h: Handle)
    requires WellFormed(nodes) && |G| == |nodes| && InArena(nodes, order) && SingleOutput(nodes, order)
    requires order != [] && h == order[|order| - 1]
    ensures h < |nodes| && !nodes[h].op.Softmax?
    ensures Adjoint(nodes, G, order, u, |order|) == Adjoint(nodes, G, order, u, |order| - 1) + Share(nodes, G[h], h, u)
  {
  }

  /**
   * Reverse-mode correctness: when every parent comes before its consumers and
   * every step is a chain-rule step, the gradients G after the pass satisfy the
   * adjoint equations: the gradient of each node is what it held before plus,
   * for every node of the order that consumes it, that node's final gradient
   * times the local derivative.
   */
  lemma {:induction false} ReplayAdjoint(nodes: seq<Node>, g: seq<real>, order: seq<Handle>, u: Handle)
    requires WellFormed(nodes) && |g| == |nodes| && InArena(nodes, order) && u < |g|
    requires SingleOutput(nodes, order) && NoFailure(nodes, order) && ParentsFirst(nodes, order)
    ensures Replay(nodes, g, order).ok
    ensures var G := Replay(nodes, g, order).grad;
            G[u] == g[u] + Adjoint(nodes, G, order, u, |order|)
    decreases |order|
  {
    ReplayOk(nodes, g, order);
    if order != [] {
      var n := |order| - 1;
      var h := order[n];
      var rest := order[..n];
      assert InArena(nodes, rest) && SingleOutput(nodes, rest) && NoFailure(nodes, rest) && ParentsFirst(nodes, rest) by {
        assert forall k :: 0 <= k < n ==> rest[k] == order[k];
      }
      var g' := Step(nodes, g, h).value;
      assert g'[u] == g[u] + Share(nodes, g[h], h, u) && g'[h] == g[h] by {
        StepIsChainRule(nodes, g, h);
      }
      var G := Replay(nodes, g', rest).grad;
      assert Replay(nodes, g, order).grad == G;
      assert G[u] == g'[u] + Adjoint(nodes, G, rest, u, n) by {
        ReplayAdjoint(nodes, g', rest, u);
      }
      assert Adjoint(nodes, G, rest, u, n) == Adjoint(nodes, G, order, u, n) by {
        AdjointPrefix(nodes, G, order, u, n);
      }
      LastIsFinal(nodes, g', order);
      AdjointLast(nodes, G, order, u, h);
    }
  }

  /** Every node of the backward order is at most the root, and every node a step of it writes is below the root. */
  lemma OrderBelowRoot(nodes: seq<Node>, root: Handle)
    requires WellFormed(nodes) && root < |nodes|
    ensures Acyclic(nodes)
    ensures var order := TopoOrder(nodes, root);
            forall k :: 0 <= k < |order| ==> order[k] <= root && forall w :: w in Writes(nodes[order[k]].op) ==> w < root
  {
    WellFormedAcyclic(nodes);
    var order := TopoOrder(nodes, root);
    ReachableBelow(nodes, root);
    forall k | 0 <= k < |order| ensures order[k] <= root && forall w :: w in Writes(nodes[order[k]].op) ==> w < root {
      assert order[k] in order;
      WritesOlder(nodes, order[k]);
    }
  }

  /**
   * After `root.backward()` the root's gradient is exactly 1, whatever it held
   * before and whether or not the pass completed, and no node created after the
   * root has changed.
   */
  lemma BackwardSeed(nodes: seq<Node>, g: seq<real>, root: Handle)
    requires WellFormed(nodes) && |g| == |nodes| && root < |nodes|
    ensures BackwardSpec(nodes, g, root).grad[root] == 1.0
    ensures forall u :: root < u < |g| ==> BackwardSpec(nodes, g, root).grad[u] == g[u]
  {
    OrderBelowRoot(nodes, root);
    var order := TopoOrder(nodes, root);
    ReplayFrame(nodes, g[root := 1.0], order, root);
    forall u | root < u < |g| ensures BackwardSpec(nodes, g, root).grad[u] == g[u] {
      ReplayFrame(nodes, g[root := 1.0], order, u);
    }
  }

  /** `root.backward()` raises exactly when some node reachable from the root is a failing `x ** 0` at x == 0. */
  lemma BackwardOk(nodes: seq<Node>, g: seq<real>, root: Handle)
    requires WellFormed(nodes) && |g| == |nodes| && root < |nodes|
    ensures Acyclic(nodes)
    ensures BackwardSpec(nodes, g, root).ok <==> forall v :: v in Reachable(nodes, root) ==> !StepFails(nodes, v)
  {
    WellFormedAcyclic(nodes);
    var order := TopoOrder(nodes, root);
    ReplayOk(nodes, g[root := 1.0], order);
    ReachableBelow(nodes, root);
    if NoFailure(nodes, order) {
      forall v | v in Reachable(nodes, root) ensures !StepFails(nodes, v) {
        assert v in order;
      }
    }
  }

  /** Every node reachable from the root is a single-output node. */
  ghost predicate NoSoftmaxBelow(nodes: seq<Node>, root: Handle)
    requires WellFormed(nodes) && root < |nodes|
  {
    WellFormedAcyclic(nodes);
    ReachableBelow(nodes, root);
    forall v :: v in Reachable(nodes, root) ==> !nodes[v].op.Softmax?
  }

  /**
   * Reverse-mode correctness of `root.backward()` on a graph without softmax:
   * when it completes, the gradient of every node other than the root is what
   * it held before plus the sum, over the nodes reachable from the root that
   * consume it, of their final gradient times the local derivative; nodes the
   * root does not depend on keep their gradient.
   */
  lemma BackwardAdjoint(nodes: seq<Node>, g: seq<real>, root: Handle, u: Handle)
    requires WellFormed(nodes) && |g| == |nodes| && root < |nodes| && u < |g|
    requires NoSoftmaxBelow(nodes, root) && BackwardSpec(nodes, g, root).ok
    ensures Acyclic(nodes)
    ensures var order, G := TopoOrder(nodes, root), BackwardSpec(nodes, g, root).grad;
            && InArena(nodes, order) && SingleOutput(nodes, order)
            && (u != root ==> G[u] == g[u] + Adjoint(nodes, G, order, u, |order|))
            && (u !in order ==> G[u] == g[u])
  {
    WellFormedAcyclic(nodes);
    var order := TopoOrder(nodes, root);
    var seeded := g[root := 1.0];
    ReplayOk(nodes, seeded, order);
    ReachableBelow(nodes, root);
    assert SingleOutput(nodes, order);
    ReplayAdjoint(nodes, seeded, order, u);
    if u !in order {
      AdjointNone(nodes, Replay(nodes, seeded, order).grad, order, u, |order|);
    }
  }
}

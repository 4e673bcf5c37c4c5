/**
 * The softmax wiring grad_eng.py evidently intends, next to the one it has:
 * each output's step sends back only its own row of the Jacobian-vector
 * product, so running the steps of all outputs of a call adds the product
 * exactly once; and each output lists every input of the call as a parent,
 * so every node a step writes into is ordered before the node that writes it.
 */
module Intended {
  import opened Values
  import opened Chain
  import SoftmaxGrad
  import Topo
  import opened Backprop

  /** What softmax output h = first + k should send back: row k only. */
  ghost function RowStep(nodes: seq<Node>, g: seq<real>, h: Handle): (r: seq<real>)
    requires WellFormed(nodes) && |g| == |nodes| && h < |nodes| && nodes[h].op.Softmax?
    ensures |r| == |g|
  {
    assert NodeOk(nodes, h);
    var ins, first, k := nodes[h].op.inputs, nodes[h].op.first, nodes[h].op.index;
    var n := |ins|;
    seq(|g|, u requires 0 <= u < |g| => g[u] + SoftmaxGrad.RowInflow(ins, OutData(nodes, first, n), g[first..first + n], u, k, n))
  }

  /**
   * The intended backward step: as Step, except that a softmax output runs
   * only its row. It fails exactly where Step fails and writes only into the
   * node's intended parents.
   */
  ghost function IntendedStep(nodes: seq<Node>, g: seq<real>, h: Handle): (r: Option<seq<real>>)
    requires WellFormed(nodes) && |g| == |nodes| && h < |nodes|
    ensures r.None? <==> StepFails(nodes, h)
    ensures r.Some? ==> |r.value| == |g|
    ensures r.Some? ==> forall u :: 0 <= u < |g| && u !in IntendedParents(nodes[h].op) ==> r.value[u] == g[u]
  {
    if nodes[h].op.Softmax? then
      RowStepElsewhere(nodes, g, h);
      Some(RowStep(nodes, g, h))
    else Step(nodes, g, h)
  }

  /** A row step leaves every node that is not an input of the call unchanged. */
  lemma RowStepElsewhere(nodes: seq<Node>, g: seq<real>, h: Handle)
    requires WellFormed(nodes) && |g| == |nodes| && h < |nodes| && nodes[h].op.Softmax?
    ensures forall u :: 0 <= u < |g| && u !in nodes[h].op.inputs ==> RowStep(nodes, g, h)[u] == g[u]
  {
    assert NodeOk(nodes, h);
    var ins, first, k := nodes[h].op.inputs, nodes[h].op.first, nodes[h].op.index;
    var n := |ins|;
    forall u | 0 <= u < |g| && u !in ins ensures RowStep(nodes, g, h)[u] == g[u] {
      RowElsewhere(ins, OutData(nodes, first, n), g[first..first + n], u, k, n);
    }
  }

  /** A row sends nothing to a node that is not an input. */
  lemma {:induction false} RowElsewhere(ins: seq<Handle>, s: seq<real>, og: seq<real>, u: Handle, i: nat, cols: nat)
    requires |ins| == |s| == |og| && i < |s| && cols <= |s|
    ensures u !in ins ==> SoftmaxGrad.RowInflow(ins, s, og, u, i, cols) == 0.0
  {
    if cols > 0 {
      RowElsewhere(ins, s, og, u, i, cols - 1);
    }
  }

  /** The steps of outputs first, first + 1, ..., first + m - 1 of one call, in that order. */
  ghost function Rows(nodes: seq<Node>, g: seq<real>, ins: seq<Handle>, first: Handle, m: nat): (r: seq<real>)
    requires WellFormed(nodes) && |g| == |nodes| && SoftmaxGroupOk(nodes, ins, first) && m <= |ins|
    ensures |r| == |g|
  {
    if m == 0 then g
    else
      var h := first + m - 1;
      assert nodes[h].op == Softmax(ins, first, m - 1);
      RowStep(nodes, Rows(nodes, g, ins, first, m - 1), h)
  }

  /**
   * Running the steps of all outputs of a call, each once, adds the softmax
   * Jacobian-vector product exactly once: the same gradients as one run of
   * the shared step.
   */
  lemma {:induction false} RowsMakeOneUpdate(nodes: seq<Node>, g: seq<real>, ins: seq<Handle>, first: Handle)
    requires WellFormed(nodes) && |g| == |nodes| && SoftmaxGroupOk(nodes, ins, first)
    ensures var n := |ins|;
            SoftmaxGrad.Targets(ins, OutData(nodes, first, n), g[first..first + n], |g|) &&
            Rows(nodes, g, ins, first, n) == SoftmaxGrad.Update(g, ins, OutData(nodes, first, n), g[first..first + n])
  {
    var n := |ins|;
    var s, og := OutData(nodes, first, n), g[first..first + n];
    RowsPartial(nodes, g, ins, first, n);
  }

  lemma {:induction false} RowsPartial(nodes: seq<Node>, g: seq<real>, ins: seq<Handle>, first: Handle, m: nat)
    requires WellFormed(nodes) && |g| == |nodes| && SoftmaxGroupOk(nodes, ins, first) && m <= |ins|
    ensures var n := |ins|;
            var r, s, og := Rows(nodes, g, ins, first, m), OutData(nodes, first, n), g[first..first + n];
            && r[first..first + n] == og
            && forall u :: 0 <= u < |g| ==> r[u] == g[u] + SoftmaxGrad.Inflow(ins, s, og, u, m, n)
  {
    var n := |ins|;
    var s, og := OutData(nodes, first, n), g[first..first + n];
    if m == 0 {
      forall u | 0 <= u < |g| ensures SoftmaxGrad.Inflow(ins, s, og, u, 0, n) == 0.0 {
        SoftmaxGrad.InflowNoRows(ins, s, og, u, n);
      }
    } else {
      RowsPartial(nodes, g, ins, first, m - 1);
      var prev := Rows(nodes, g, ins, first, m - 1);
      var h := first + m - 1;
      assert nodes[h].op == Softmax(ins, first, m - 1);
      var r := RowStep(nodes, prev, h);
      assert r == Rows(nodes, g, ins, first, m);
      forall u | 0 <= u < |g| ensures r[u] == g[u] + SoftmaxGrad.Inflow(ins, s, og, u, m, n) {
        SoftmaxGrad.InflowNextRow(ins, s, og, u, m - 1, n);
        RowOutside(ins, s, og, u, m - 1, n, first);
      }
      forall k | first <= k < first + n ensures r[k] == prev[k] {
        RowOutside(ins, s, og, k, m - 1, n, first);
      }
    }
  }

  /** A row sends nothing to a node that is not an input, such as an output of the call. */
  lemma {:induction false} RowOutside(ins: seq<Handle>, s: seq<real>, og: seq<real>, u: Handle, i: nat, cols: nat, first: Handle)
    requires |ins| == |s| == |og| && i < |s| && cols <= |s|
    requires forall j :: 0 <= j < |ins| ==> ins[j] < first
    ensures u >= first ==> SoftmaxGrad.RowInflow(ins, s, og, u, i, cols) == 0.0
  {
    if cols > 0 {
      RowOutside(ins, s, og, u, i, cols - 1, first);
    }
  }

  /** The parents a softmax output should list: every input of its call. */
  function IntendedParents(op: Op): (ps: seq<Handle>)
    ensures forall u :: u in Parents(op) ==> u in ps
    ensures forall u :: u in Writes(op) ==> u in ps
  {
    match op
    case Softmax(ins, _, _) => ins
    case _ => Parents(op)
  }

  /** Every intended parent of a node is an older node. */
  ghost predicate IntendedOlder(nodes: seq<Node>)
  {
    forall h, k :: 0 <= h < |nodes| && 0 <= k < |IntendedParents(nodes[h].op)| ==> IntendedParents(nodes[h].op)[k] < h
  }

  lemma WellFormedIntendedOlder(nodes: seq<Node>)
    requires WellFormed(nodes)
    ensures IntendedOlder(nodes)
  {
    forall h, k | 0 <= h < |nodes| && 0 <= k < |IntendedParents(nodes[h].op)|
      ensures IntendedParents(nodes[h].op)[k] < h
    {
      assert NodeOk(nodes, h);
      ParentsOlder(nodes, h);
    }
  }

  /** `build_topo(v)` over the intended parents: what it appends comes after t's order and is at most v. */
  ghost function IntendedDfs(nodes: seq<Node>, v: Handle, t: Topo.Trace): (r: Topo.Trace)
    requires IntendedOlder(nodes) && v < |nodes|
    ensures |t.order| <= |r.order| && r.order[..|t.order|] == t.order
    ensures forall k :: |t.order| <= k < |r.order| ==> r.order[k] <= v
    decreases v, 1, 0
  {
    if v in t.visited then t
    else
      var t1 := IntendedDfsParents(nodes, v, 0, Topo.Trace(t.visited + {v}, t.order));
      Topo.Trace(t1.visited, t1.order + [v])
  }

  ghost function IntendedDfsParents(nodes: seq<Node>, v: Handle, i: nat, t: Topo.Trace): (r: Topo.Trace)
    requires IntendedOlder(nodes) && v < |nodes| && i <= |IntendedParents(nodes[v].op)|
    ensures |t.order| <= |r.order| && r.order[..|t.order|] == t.order
    ensures forall k :: |t.order| <= k < |r.order| ==> r.order[k] < v
    decreases v, 0, |IntendedParents(nodes[v].op)| - i
  {
    var ps := IntendedParents(nodes[v].op);
    if i == |ps| then t
    else
      var t1 := IntendedDfs(nodes, ps[i], t);
      var r := IntendedDfsParents(nodes, v, i + 1, t1);
      assert r.order[..|t.order|] == r.order[..|t1.order|][..|t.order|];
      r
  }

  /** The order the corrected `backward` replays: it ends with the root and stays below it. */
  ghost function IntendedOrder(nodes: seq<Node>, root: Handle): (order: seq<Handle>)
    requires WellFormed(nodes) && root < |nodes|
    ensures |order| > 0 && order[|order| - 1] == root
    ensures forall k :: 0 <= k < |order| ==> order[k] <= root
  {
    WellFormedIntendedOlder(nodes);
    IntendedDfs(nodes, root, Topo.Trace({}, [])).order
  }

  /** Replay with the intended steps. */
  ghost function IntendedReplay(nodes: seq<Node>, g: seq<real>, order: seq<Handle>): (r: Run)
    requires WellFormed(nodes) && |g| == |nodes| && InArena(nodes, order)
    ensures |r.grad| == |g|
    decreases |order|
  {
    if order == [] then Run(g, true)
    else
      var h := order[|order| - 1];
      var st := IntendedStep(nodes, g, h);
      if st.None? then Run(g, false) else IntendedReplay(nodes, st.value, order[..|order| - 1])
  }

  /** Replaying a prefix of an order with the intended steps: its last node steps first. */
  lemma IntendedReplayUnfold(nodes: seq<Node>, g: seq<real>, order: seq<Handle>, i: nat)
    requires WellFormed(nodes) && |g| == |nodes| && InArena(nodes, order) && 0 < i <= |order|
    ensures InArena(nodes, order[..i]) && InArena(nodes, order[..i - 1])
    ensures var st := IntendedStep(nodes, g, order[i - 1]);
            IntendedReplay(nodes, g, order[..i]) == if st.None? then Run(g, false) else IntendedReplay(nodes, st.value, order[..i - 1])
  {
    assert order[..i][..i - 1] == order[..i - 1];
  }

  /** The corrected `root.backward()`: seed the root, then replay the intended order with the intended steps. */
  ghost function IntendedPass(nodes: seq<Node>, g: seq<real>, root: Handle): (r: Run)
    requires WellFormed(nodes) && |g| == |nodes| && root < |nodes|
    ensures |r.grad| == |g|
  {
    IntendedReplay(nodes, g[root := 1.0], IntendedOrder(nodes, root))
  }

  /** No node of the arena is a softmax output. */
  ghost predicate SoftmaxFree(nodes: seq<Node>)
  {
    forall h :: 0 <= h < |nodes| ==> !nodes[h].op.Softmax?
  }

  /** Without softmax the intended traversal is `build_topo` itself. */
  lemma {:induction false} IntendedDfsAgrees(nodes: seq<Node>, v: Handle, t: Topo.Trace)
    requires WellFormed(nodes) && IntendedOlder(nodes) && Acyclic(nodes) && SoftmaxFree(nodes) && v < |nodes|
    ensures IntendedDfs(nodes, v, t) == Topo.Dfs(nodes, v, t)
    decreases v, 1, 0
  {
    if v !in t.visited {
      IntendedDfsParentsAgrees(nodes, v, 0, Topo.Trace(t.visited + {v}, t.order));
    }
  }

  lemma {:induction false} IntendedDfsParentsAgrees(nodes: seq<Node>, v: Handle, i: nat, t: Topo.Trace)
    requires WellFormed(nodes) && IntendedOlder(nodes) && Acyclic(nodes) && SoftmaxFree(nodes)
    requires v < |nodes| && i <= |Parents(nodes[v].op)|
    ensures IntendedParents(nodes[v].op) == Parents(nodes[v].op)
    ensures IntendedDfsParents(nodes, v, i, t) == Topo.DfsParents(nodes, v, i, t)
    decreases v, 0, |Parents(nodes[v].op)| - i
  {
    assert !nodes[v].op.Softmax?;
    var ps := Parents(nodes[v].op);
    if i < |ps| {
      IntendedDfsAgrees(nodes, ps[i], t);
      IntendedDfsParentsAgrees(nodes, v, i + 1, Topo.Dfs(nodes, ps[i], t));
    }
  }

  /** Without softmax the intended steps are the program's own. */
  lemma {:induction false} IntendedReplayAgrees(nodes: seq<Node>, g: seq<real>, order: seq<Handle>)
    requires WellFormed(nodes) && SoftmaxFree(nodes) && |g| == |nodes| && InArena(nodes, order)
    ensures IntendedReplay(nodes, g, order) == Replay(nodes, g, order)
    decreases |order|
  {
    if order != [] {
      var h := order[|order| - 1];
      assert !nodes[h].op.Softmax?;
      var st := Step(nodes, g, h);
      if st.Some? {
        IntendedReplayAgrees(nodes, st.value, order[..|order| - 1]);
      }
    }
  }

  /** The correction changes nothing on an arena without softmax: the intended pass is `backward()`. */
  lemma IntendedPassAgrees(nodes: seq<Node>, g: seq<real>, root: Handle)
    requires WellFormed(nodes) && SoftmaxFree(nodes) && |g| == |nodes| && root < |nodes|
    ensures IntendedPass(nodes, g, root) == BackwardSpec(nodes, g, root)
  {
    WellFormedIntendedOlder(nodes);
    WellFormedAcyclic(nodes);
    IntendedDfsAgrees(nodes, root, Topo.Trace({}, []));
    IntendedReplayAgrees(nodes, g[root := 1.0], IntendedOrder(nodes, root));
  }
}

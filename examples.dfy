/**
 * Small graphs worked through the backward pass, including the two ways the
 * softmax wiring of grad_eng.py departs from the gradient it means to compute.
 */
module Examples {
  import opened Values
  import opened Chain
  import opened Topo
  import opened Backprop
  import opened Intended
  import SoftmaxGrad
  import Engine

  /** y = x + x with x = 3: node 0 is x, node 1 is y. */
  function FanOut(): seq<Node>
  {
    [Node(3.0, Op.Leaf), Node(6.0, Op.Add(0, 0))]
  }

  lemma FanOutWellFormed()
    ensures WellFormed(FanOut()) && Acyclic(FanOut())
  {
    var nodes := FanOut();
    assert NodeOk(nodes, 0) && NodeOk(nodes, 1);
    WellFormedAcyclic(nodes);
  }

  /** build_topo from y visits x, then y. */
  lemma FanOutOrder()
    ensures WellFormed(FanOut()) && Acyclic(FanOut())
    ensures TopoOrder(FanOut(), 1) == [0, 1]
  {
    var nodes := FanOut();
    assert NodeOk(nodes, 0) && NodeOk(nodes, 1);
    assert Parents(nodes[1].op) == [0];
    WellFormedAcyclic(nodes);
    var t1 := Trace({1}, []);
    assert Dfs(nodes, 0, t1) == Trace({1, 0}, [0]);
    assert DfsParents(nodes, 1, 0, t1) == Trace({1, 0}, [0]);
  }

  /** The two-step replay of y's order: y's step, then x's (a leaf, which does nothing). */
  lemma FanOutReplay(x: real, y: real, z: real)
    requires z == x + y + y
    ensures WellFormed(FanOut())
    ensures Replay(FanOut(), [x, y], [0, 1]) == Run([z, y], true)
  {
    FanOutWellFormed();
    var nodes := FanOut();
    var g := [x, y];
    var g1 := [z, y];
    StepAddUnfold(nodes, g, 1, 0, 0, y);
    assert AddTo(g, 0, y) == [x + y, y];
    assert AddTo([x + y, y], 0, y) == g1;
    StepLeafUnfold(nodes, g1, 0);
    var order := [0, 1];
    ReplayUnfold(nodes, g1, order, 1);
    assert order[..0] == [];
    ReplayUnfold(nodes, g, order, 2);
    assert order[..2] == order;
  }

  /** y.backward() from gradients [x, y], given the order and the replay from [x, 1]. */
  lemma FanOutBackward(x: real, y: real, z: real)
    requires WellFormed(FanOut()) && Acyclic(FanOut()) && TopoOrder(FanOut(), 1) == [0, 1]
    requires Replay(FanOut(), [x, 1.0], [0, 1]) == Run([z, 1.0], true)
    ensures BackwardSpec(FanOut(), [x, y], 1) == Run([z, 1.0], true)
  {
    assert [x, y][1 := 1.0] == [x, 1.0];
  }

  /**
   * Gradients accumulate: y = x + x gives x.grad == 2, and a second
   * y.backward() without zeroing adds another 2, while y.grad is set to 1 again.
   */
  lemma FanOutAccumulates()
    ensures WellFormed(FanOut())
    ensures BackwardSpec(FanOut(), [0.0, 0.0], 1) == Run([2.0, 1.0], true)
    ensures BackwardSpec(FanOut(), [2.0, 1.0], 1) == Run([4.0, 1.0], true)
  {
    FanOutOrder();
    FanOutReplay(0.0, 1.0, 2.0);
    FanOutReplay(2.0, 1.0, 4.0);
    FanOutBackward(0.0, 0.0, 2.0);
    FanOutBackward(2.0, 1.0, 4.0);
  }

  /** The same computation through the Graph class: x = Value(3); y = x + x; y.backward() twice. */
  method FanOutOnGraph() returns (first: real, second: real)
    ensures first == 2.0 && second == 4.0
  {
    var g := new Engine.Graph();
    var x := g.Leaf(3.0);
    var y := g.Add(x, Ref(x));
    assert g.nodes == FanOut() && g.grad == [0.0, 0.0];
    FanOutAccumulates();
    var ok := g.Backward(y);
    first := g.grad[x];
    ok := g.Backward(y);
    second := g.grad[x];
  }

  /** c = a * b + a with a = 2, b = 3: nodes 0, 1 are a, b; 2 is a * b; 3 is c. */
  function ProductSum(): seq<Node>
  {
    [Node(2.0, Op.Leaf), Node(3.0, Op.Leaf), Node(6.0, Op.Mul(0, 1)), Node(8.0, Op.Add(2, 0))]
  }

  /** build_topo from c first reaches a * b, and lists a and b before it. */
  lemma ProductSumLeft()
    ensures WellFormed(ProductSum()) && Acyclic(ProductSum())
    ensures Dfs(ProductSum(), 2, Trace({3}, [])) == Trace({3, 2, 0, 1}, [0, 1, 2])
  {
    var nodes := ProductSum();
    assert NodeOk(nodes, 0) && NodeOk(nodes, 1) && NodeOk(nodes, 2) && NodeOk(nodes, 3);
    assert Parents(nodes[2].op) == [0, 1];
    WellFormedAcyclic(nodes);
    var t0 := Trace({3, 2}, []);
    var t1 := Dfs(nodes, 0, t0);
    assert t1 == Trace({3, 2, 0}, [0]);
    var t2 := Dfs(nodes, 1, t1);
    assert t2 == Trace({3, 2, 0, 1}, [0, 1]);
    assert DfsParents(nodes, 2, 1, t1) == t2;
    assert DfsParents(nodes, 2, 0, t0) == t2;
  }

  /** build_topo from c visits a * b (after a and b), skips a the second time, then c. */
  lemma ProductSumOrder()
    ensures WellFormed(ProductSum()) && Acyclic(ProductSum())
    ensures TopoOrder(ProductSum(), 3) == [0, 1, 2, 3]
  {
    var nodes := ProductSum();
    ProductSumLeft();
    assert Parents(nodes[3].op) == [2, 0];
    var t3 := Trace({3, 2, 0, 1}, [0, 1, 2]);
    assert Dfs(nodes, 0, t3) == t3;
    assert DfsParents(nodes, 3, 1, t3) == t3;
    assert DfsParents(nodes, 3, 0, Trace({3}, [])) == t3;
    var t := Trace({}, []);
    assert Trace(t.visited + {3}, t.order) == Trace({3}, []);
    assert Dfs(nodes, 3, t).order == [0, 1, 2] + [3];
  }

  /** c's step hands 1 to a * b and to a; then a * b's step sends b = 3 to a and a = 2 to b. */
  lemma ProductSumSteps()
    ensures WellFormed(ProductSum())
    ensures Step(ProductSum(), [0.0, 0.0, 0.0, 1.0], 3) == Some([1.0, 0.0, 1.0, 1.0])
    ensures Step(ProductSum(), [1.0, 0.0, 1.0, 1.0], 2) == Some([4.0, 2.0, 1.0, 1.0])
  {
    var nodes := ProductSum();
    ProductSumOrder();
    var g0, g1 := [0.0, 0.0, 0.0, 1.0], [1.0, 0.0, 1.0, 1.0];
    StepAddUnfold(nodes, g0, 3, 2, 0, 1.0);
    assert AddTo(AddTo(g0, 2, 1.0), 0, 1.0) == g1;
    StepMulUnfold(nodes, g1, 2, 0, 1, 2.0, 3.0, 1.0);
    assert AddTo(AddTo(g1, 0, 3.0 * 1.0), 1, 2.0 * 1.0) == [4.0, 2.0, 1.0, 1.0];
  }

  /** The replay of c's order from the seeded gradients; the leaves' steps do nothing. */
  lemma ProductSumReplay()
    ensures WellFormed(ProductSum())
    ensures Replay(ProductSum(), [0.0, 0.0, 0.0, 1.0], [0, 1, 2, 3]) == Run([4.0, 2.0, 1.0, 1.0], true)
  {
    var nodes := ProductSum();
    ProductSumSteps();
    var g0, g1, g2 := [0.0, 0.0, 0.0, 1.0], [1.0, 0.0, 1.0, 1.0], [4.0, 2.0, 1.0, 1.0];
    StepLeafUnfold(nodes, g2, 0);
    StepLeafUnfold(nodes, g2, 1);
    var order := [0, 1, 2, 3];
    assert order[..0] == [];
    ReplayUnfold(nodes, g2, order, 1);
    ReplayUnfold(nodes, g2, order, 2);
    ReplayUnfold(nodes, g1, order, 3);
    ReplayUnfold(nodes, g0, order, 4);
    assert order[..4] == order;
  }

  /** c.backward() from zero gradients: a.grad == b + 1 == 4, b.grad == a == 2. */
  lemma ProductSumBackward()
    ensures WellFormed(ProductSum())
    ensures BackwardSpec(ProductSum(), [0.0, 0.0, 0.0, 0.0], 3) == Run([4.0, 2.0, 1.0, 1.0], true)
  {
    ProductSumOrder();
    ProductSumReplay();
    assert [0.0, 0.0, 0.0, 0.0][3 := 1.0] == [0.0, 0.0, 0.0, 1.0];
  }

  /** a = Value(2); b = Value(3); c = a * b + a, as the Graph class builds it. */
  method BuildProductSum() returns (g: Engine.Graph, a: Handle, b: Handle, c: Handle)
    ensures fresh(g) && g.Valid() && g.nodes == ProductSum() && g.grad == [0.0, 0.0, 0.0, 0.0]
    ensures a == 0 && b == 1 && c == 3
  {
    g := new Engine.Graph();
    a := g.Leaf(2.0);
    b := g.Leaf(3.0);
    assert g.nodes == ProductSum()[..2];
    var p := g.Mul(a, Ref(b));
    assert g.nodes == ProductSum()[..3];
    c := g.Add(p, Ref(a));
  }

  /** c.backward() through the Graph class: c.data == 8, a.grad == 4, b.grad == 2. */
  method ProductSumOnGraph() returns (c: real, da: real, db: real)
    ensures c == 8.0 && da == 4.0 && db == 2.0
  {
    var g, a, b, h := BuildProductSum();
    c := g.nodes[h].data;
    ProductSumBackward();
    var ok := g.Backward(h);
    da := g.grad[a];
    db := g.grad[b];
  }

  /** The weighted sum of two output gradients. */
  lemma DotPair(s: seq<real>, og: seq<real>)
    requires |s| == |og| == 2
    ensures SoftmaxGrad.Dot(s, og, |s|) == og[0] * s[0] + og[1] * s[1]
  {
    assert SoftmaxGrad.Dot(s, og, 1) == og[0] * s[0];
  }

  /** What input position j of a two-input softmax receives from the shared step. */
  lemma UpdatePairAt(g: seq<real>, ins: seq<Handle>, s: seq<real>, og: seq<real>, d: real, j: nat)
    requires |ins| == |s| == |og| == 2 && ins[0] != ins[1] && ins[0] < |g| && ins[1] < |g| && j < 2
    requires d == og[0] * s[0] + og[1] * s[1]
    ensures SoftmaxGrad.Targets(ins, s, og, |g|)
    ensures SoftmaxGrad.Update(g, ins, s, og)[ins[j]] == g[ins[j]] + s[j] * (og[j] - d)
  {
    DotPair(s, og);
    SoftmaxGrad.UpdateClosedForm(g, ins, s, og, j);
  }

  /** The shared softmax step over two distinct inputs, in closed form; d is the weighted sum of the output gradients. */
  lemma UpdatePair(g: seq<real>, ins: seq<Handle>, s: seq<real>, og: seq<real>, d: real, r: seq<real>)
    requires |ins| == |s| == |og| == 2 && ins[0] != ins[1] && ins[0] < |g| && ins[1] < |g|
    requires d == og[0] * s[0] + og[1] * s[1]
    requires r == g[ins[0] := g[ins[0]] + s[0] * (og[0] - d)][ins[1] := g[ins[1]] + s[1] * (og[1] - d)]
    ensures SoftmaxGrad.Targets(ins, s, og, |g|)
    ensures SoftmaxGrad.Update(g, ins, s, og) == r
  {
    var u := SoftmaxGrad.Update(g, ins, s, og);
    UpdatePairAt(g, ins, s, og, d, 0);
    UpdatePairAt(g, ins, s, og, d, 1);
    forall k | 0 <= k < |g| ensures u[k] == r[k] {
      if k != ins[0] && k != ins[1] {
        assert k !in ins;
      }
    }
    assert u == r;
  }

  /**
   * L = o0 * o1 for [o0, o1] = softmax([x0, x1]) with probabilities 1/4 and
   * 3/4 (nodes 0, 1 are x0, x1; 2, 3 are o0, o1; 4 is L). Those probabilities
   * need x1 - x0 = ln 3; the exponentials are given, not computed, and the
   * leaves' values play no part in the backward pass, so both leaves hold 0.
   */
  function SharedStep(): seq<Node>
  {
    [ Node(0.0, Op.Leaf), Node(0.0, Op.Leaf),
      Node(0.25, Op.Softmax([0, 1], 2, 0)), Node(0.75, Op.Softmax([0, 1], 2, 1)),
      Node(0.1875, Op.Mul(2, 3)) ]
  }

  lemma SharedStepWellFormed()
    ensures WellFormed(SharedStep()) && Acyclic(SharedStep())
  {
    var nodes := SharedStep();
    assert OutData(nodes, 2, 2) == [0.25, 0.75];
    assert Total([0.25, 0.75], 1) == 0.25;
    assert SoftmaxGroupOk(nodes, [0, 1], 2);
    assert NodeOk(nodes, 2) && NodeOk(nodes, 3) && NodeOk(nodes, 4);
    assert forall h :: 0 <= h < 5 ==> NodeOk(nodes, h);
    WellFormedAcyclic(nodes);
  }

  lemma SharedStepOrder()
    ensures WellFormed(SharedStep()) && Acyclic(SharedStep())
    ensures TopoOrder(SharedStep(), 4) == [0, 2, 1, 3, 4]
  {
    var nodes := SharedStep();
    SharedStepWellFormed();
    assert Parents(nodes[4].op) == [2, 3];
    var t2 := Dfs(nodes, 2, Trace({4}, []));
    SharedStepLeft();
    SharedStepRight();
    assert Dfs(nodes, 3, t2) == Trace({4, 2, 0, 3, 1}, [0, 2, 1, 3]);
    assert DfsParents(nodes, 4, 0, Trace({4}, [])) == Trace({4, 2, 0, 3, 1}, [0, 2, 1, 3]);
  }

  /** The traversal from L reaches o0, then x0. */
  lemma SharedStepLeft()
    ensures WellFormed(SharedStep()) && Acyclic(SharedStep())
    ensures Dfs(SharedStep(), 2, Trace({4}, [])) == Trace({4, 2, 0}, [0, 2])
  {
    var nodes := SharedStep();
    SharedStepWellFormed();
    assert Parents(nodes[2].op) == [0];
    var t := Dfs(nodes, 0, Trace({4, 2}, []));
    assert t == Trace({4, 2, 0}, [0]);
    assert DfsParents(nodes, 2, 0, Trace({4, 2}, [])) == t;
  }

  /** ... then o1, then x1. */
  lemma SharedStepRight()
    ensures WellFormed(SharedStep()) && Acyclic(SharedStep())
    ensures Dfs(SharedStep(), 3, Trace({4, 2, 0}, [0, 2])) == Trace({4, 2, 0, 3, 1}, [0, 2, 1, 3])
  {
    var nodes := SharedStep();
    SharedStepWellFormed();
    assert Parents(nodes[3].op) == [1];
    var t3 := Dfs(nodes, 1, Trace({4, 2, 0, 3}, [0, 2]));
    assert t3 == Trace({4, 2, 0, 3, 1}, [0, 2, 1]);
    assert DfsParents(nodes, 3, 0, Trace({4, 2, 0, 3}, [0, 2])) == t3;
  }

  /**
   * Either output's step runs the whole shared softmax step: with the
   * outputs' gradients at 0.75 and 0.25, x0 receives 3/32 and x1 -3/32.
   */
  lemma SharedStepSoftmax(g: seq<real>, h: Handle)
    requires |g| == 5 && g[2] == 0.75 && g[3] == 0.25 && (h == 2 || h == 3)
    ensures WellFormed(SharedStep())
    ensures Step(SharedStep(), g, h) == Some(g[0 := g[0] + 0.09375][1 := g[1] - 0.09375])
  {
    var nodes := SharedStep();
    SharedStepWellFormed();
    assert OutData(nodes, 2, 2) == [0.25, 0.75];
    assert g[2..4] == [0.75, 0.25];
    UpdatePair(g, [0, 1], [0.25, 0.75], [0.75, 0.25], 0.375, g[0 := g[0] + 0.09375][1 := g[1] - 0.09375]);
  }

  /** The last two steps of the order: o0's shared step, then x0's (a leaf). */
  lemma SharedStepHead()
    ensures WellFormed(SharedStep())
    ensures InArena(SharedStep(), [0, 2])
    ensures Replay(SharedStep(), [0.09375, -0.09375, 0.75, 0.25, 1.0], [0, 2]) == Run([0.1875, -0.1875, 0.75, 0.25, 1.0], true)
  {
    var nodes := SharedStep();
    SharedStepWellFormed();
    var g2 := [0.09375, -0.09375, 0.75, 0.25, 1.0];
    var g3 := [0.1875, -0.1875, 0.75, 0.25, 1.0];
    SharedStepSoftmax(g2, 2);
    assert g2[0 := g2[0] + 0.09375][1 := g2[1] - 0.09375] == g3;
    StepLeafUnfold(nodes, g3, 0);
    var order := [0, 2];
    ReplayUnfold(nodes, g3, order, 1);
    assert order[..0] == [];
    ReplayUnfold(nodes, g2, order, 2);
    assert order[..2] == order;
  }

  /** After L's step, the rest of the order runs the shared step twice (o1's, then o0's). */
  lemma SharedStepTail()
    ensures WellFormed(SharedStep())
    ensures InArena(SharedStep(), [0, 2, 1, 3])
    ensures Replay(SharedStep(), [0.0, 0.0, 0.75, 0.25, 1.0], [0, 2, 1, 3]) == Run([0.1875, -0.1875, 0.75, 0.25, 1.0], true)
  {
    var nodes := SharedStep();
    SharedStepHead();
    var g1 := [0.0, 0.0, 0.75, 0.25, 1.0];
    var g2 := [0.09375, -0.09375, 0.75, 0.25, 1.0];
    SharedStepSoftmax(g1, 3);
    assert g1[0 := g1[0] + 0.09375][1 := g1[1] - 0.09375] == g2;
    StepLeafUnfold(nodes, g2, 1);
    var order := [0, 2, 1, 3];
    assert order[..2] == [0, 2];
    ReplayUnfold(nodes, g2, order, 3);
    ReplayUnfold(nodes, g1, order, 4);
    assert order[..4] == order;
  }

  /** L's step from the seed hands o0 the gradient o1 = 3/4 and o1 the gradient o0 = 1/4. */
  lemma SharedStepSeed()
    ensures WellFormed(SharedStep())
    ensures Step(SharedStep(), [0.0, 0.0, 0.0, 0.0, 1.0], 4) == Some([0.0, 0.0, 0.75, 0.25, 1.0])
  {
    var nodes := SharedStep();
    SharedStepWellFormed();
    var g0 := [0.0, 0.0, 0.0, 0.0, 1.0];
    StepMulUnfold(nodes, g0, 4, 2, 3, 0.25, 0.75, 1.0);
    assert AddTo(AddTo(g0, 2, 0.75 * 1.0), 3, 0.25 * 1.0) == [0.0, 0.0, 0.75, 0.25, 1.0];
  }

  /**
   * The as-written pass over L = o0 * o1: both outputs are in the order, so
   * the shared step runs twice and x0 ends with twice the derivative of L,
   * which is the single column Column(s, og, 0) = 3/32.
   */
  lemma SoftmaxCountedTwice()
    ensures WellFormed(SharedStep())
    ensures SoftmaxGrad.Column([0.25, 0.75], [0.75, 0.25], 0, 2) == 0.09375
    ensures BackwardSpec(SharedStep(), [0.0, 0.0, 0.0, 0.0, 0.0], 4) == Run([0.1875, -0.1875, 0.75, 0.25, 1.0], true)
  {
    var nodes := SharedStep();
    SharedStepOrder();
    SoftmaxGrad.ColumnClosedForm([0.25, 0.75], [0.75, 0.25], 0);
    assert SoftmaxGrad.Dot([0.25, 0.75], [0.75, 0.25], 1) == 0.1875;
    var g0 := [0.0, 0.0, 0.0, 0.0, 1.0];
    assert [0.0, 0.0, 0.0, 0.0, 0.0][4 := 1.0] == g0;
    SharedStepSeed();
    SharedStepTail();
    var order := [0, 2, 1, 3, 4];
    ReplayUnfold(nodes, g0, order, 5);
    assert order[..4] == [0, 2, 1, 3];
    assert order[..5] == order;
  }

  /** Output k's row step over two distinct inputs, in closed form. */
  lemma RowStepPair(nodes: seq<Node>, g: seq<real>, ins: seq<Handle>, first: Handle, k: nat, s: seq<real>, og: seq<real>, r: seq<real>)
    requires WellFormed(nodes) && |g| == |nodes| && SoftmaxGroupOk(nodes, ins, first)
    requires |ins| == 2 && ins[0] != ins[1] && k < 2
    requires s == OutData(nodes, first, 2) && og == g[first..first + 2]
    requires r == g[ins[0] := g[ins[0]] + SoftmaxGrad.Term(s, og, k, 0)][ins[1] := g[ins[1]] + SoftmaxGrad.Term(s, og, k, 1)]
    ensures nodes[first + k].op == Softmax(ins, first, k)
    ensures RowStep(nodes, g, first + k) == r
  {
    assert nodes[first + k].op == Softmax(ins, first, k);
    var q := RowStep(nodes, g, first + k);
    forall u | 0 <= u < |g| ensures q[u] == r[u] {
      assert q[u] == g[u] + SoftmaxGrad.RowInflow(ins, s, og, u, k, 2);
      assert SoftmaxGrad.RowInflow(ins, s, og, u, k, 1) == if ins[0] == u then SoftmaxGrad.Term(s, og, k, 0) else 0.0;
    }
  }

  /** The corrected traversal from L reaches o0, whose intended parents are x0 and x1. */
  lemma SharedStepIntendedLeft()
    ensures WellFormed(SharedStep()) && IntendedOlder(SharedStep())
    ensures IntendedDfs(SharedStep(), 2, Trace({4}, [])) == Trace({4, 2, 0, 1}, [0, 1, 2])
  {
    var nodes := SharedStep();
    SharedStepWellFormed();
    WellFormedIntendedOlder(nodes);
    assert IntendedParents(nodes[2].op) == [0, 1];
    var t0 := Trace({4, 2}, []);
    var t1 := IntendedDfs(nodes, 0, t0);
    assert t1 == Trace({4, 2, 0}, [0]);
    var t2 := IntendedDfs(nodes, 1, t1);
    assert t2 == Trace({4, 2, 0, 1}, [0, 1]);
    assert IntendedDfsParents(nodes, 2, 1, t1) == t2;
    assert IntendedDfsParents(nodes, 2, 0, t0) == t2;
  }

  /** ... then o1, whose intended parents are already visited. */
  lemma SharedStepIntendedRight()
    ensures WellFormed(SharedStep()) && IntendedOlder(SharedStep())
    ensures IntendedDfs(SharedStep(), 3, Trace({4, 2, 0, 1}, [0, 1, 2])) == Trace({4, 2, 0, 1, 3}, [0, 1, 2, 3])
  {
    var nodes := SharedStep();
    SharedStepWellFormed();
    WellFormedIntendedOlder(nodes);
    assert IntendedParents(nodes[3].op) == [0, 1];
    var t3 := Trace({4, 2, 0, 1, 3}, [0, 1, 2]);
    assert IntendedDfs(nodes, 0, t3) == t3 && IntendedDfs(nodes, 1, t3) == t3;
    assert IntendedDfsParents(nodes, 3, 1, t3) == t3;
    assert IntendedDfsParents(nodes, 3, 0, t3) == t3;
  }

  /** L's intended parents are o0, then o1. */
  lemma SharedStepIntendedTop()
    ensures WellFormed(SharedStep()) && IntendedOlder(SharedStep())
    ensures IntendedDfsParents(SharedStep(), 4, 0, Trace({4}, [])) == Trace({4, 2, 0, 1, 3}, [0, 1, 2, 3])
  {
    var nodes := SharedStep();
    SharedStepIntendedLeft();
    SharedStepIntendedRight();
    assert IntendedParents(nodes[4].op) == [2, 3];
    var t2 := Trace({4, 2, 0, 1}, [0, 1, 2]);
    var t4 := Trace({4, 2, 0, 1, 3}, [0, 1, 2, 3]);
    assert IntendedDfsParents(nodes, 4, 1, t2) == t4;
  }

  /** The corrected order from L: x0, x1, o0, o1, L. */
  lemma SharedStepIntendedOrder()
    ensures WellFormed(SharedStep())
    ensures IntendedOrder(SharedStep(), 4) == [0, 1, 2, 3, 4]
  {
    SharedStepIntendedTop();
    var t := Trace({}, []);
    assert Trace(t.visited + {4}, t.order) == Trace({4}, []);
    var r := IntendedDfs(SharedStep(), 4, t);
    assert r.order == [0, 1, 2, 3] + [4];
  }

  /** o1's row, then o0's: x0 receives -3/64 and then 9/64. */
  lemma SharedStepRows()
    ensures WellFormed(SharedStep())
    ensures IntendedStep(SharedStep(), [0.0, 0.0, 0.75, 0.25, 1.0], 3) == Some([-0.046875, 0.046875, 0.75, 0.25, 1.0])
    ensures IntendedStep(SharedStep(), [-0.046875, 0.046875, 0.75, 0.25, 1.0], 2) == Some([0.09375, -0.09375, 0.75, 0.25, 1.0])
  {
    var nodes := SharedStep();
    SharedStepWellFormed();
    var s, og := [0.25, 0.75], [0.75, 0.25];
    assert OutData(nodes, 2, 2) == s;
    var g1, g2 := [0.0, 0.0, 0.75, 0.25, 1.0], [-0.046875, 0.046875, 0.75, 0.25, 1.0];
    assert g1[2..4] == og && g2[2..4] == og;
    assert SoftmaxGroupOk(nodes, [0, 1], 2);
    RowStepPair(nodes, g1, [0, 1], 2, 1, s, og, g2);
    RowStepPair(nodes, g2, [0, 1], 2, 0, s, og, [0.09375, -0.09375, 0.75, 0.25, 1.0]);
  }

  /** The last three steps of the corrected order: o0's row, then the leaves x1 and x0. */
  lemma SharedStepIntendedHead()
    ensures WellFormed(SharedStep())
    ensures InArena(SharedStep(), [0, 1, 2])
    ensures IntendedReplay(SharedStep(), [-0.046875, 0.046875, 0.75, 0.25, 1.0], [0, 1, 2]) == Run([0.09375, -0.09375, 0.75, 0.25, 1.0], true)
  {
    var nodes := SharedStep();
    SharedStepRows();
    var g2, g3 := [-0.046875, 0.046875, 0.75, 0.25, 1.0], [0.09375, -0.09375, 0.75, 0.25, 1.0];
    StepLeafUnfold(nodes, g3, 0);
    StepLeafUnfold(nodes, g3, 1);
    var order := [0, 1, 2];
    assert order[..0] == [];
    IntendedReplayUnfold(nodes, g3, order, 1);
    IntendedReplayUnfold(nodes, g3, order, 2);
    IntendedReplayUnfold(nodes, g2, order, 3);
    assert order[..3] == order;
  }

  /** o1's row, then the rest of the corrected order. */
  lemma SharedStepIntendedTail()
    ensures WellFormed(SharedStep())
    ensures InArena(SharedStep(), [0, 1, 2, 3])
    ensures IntendedReplay(SharedStep(), [0.0, 0.0, 0.75, 0.25, 1.0], [0, 1, 2, 3]) == Run([0.09375, -0.09375, 0.75, 0.25, 1.0], true)
  {
    var nodes := SharedStep();
    SharedStepRows();
    SharedStepIntendedHead();
    var order := [0, 1, 2, 3];
    assert order[..3] == [0, 1, 2];
    IntendedReplayUnfold(nodes, [0.0, 0.0, 0.75, 0.25, 1.0], order, 4);
    assert order[..4] == order;
  }

  /** The corrected replay from the seed: L's step, then the rest. */
  lemma SharedStepIntendedReplay()
    ensures WellFormed(SharedStep())
    ensures IntendedReplay(SharedStep(), [0.0, 0.0, 0.0, 0.0, 1.0], [0, 1, 2, 3, 4]) == Run([0.09375, -0.09375, 0.75, 0.25, 1.0], true)
  {
    var nodes := SharedStep();
    SharedStepSeed();
    SharedStepIntendedTail();
    var g0 := [0.0, 0.0, 0.0, 0.0, 1.0];
    assert IntendedStep(nodes, g0, 4) == Step(nodes, g0, 4);
    var order := [0, 1, 2, 3, 4];
    assert order[..4] == [0, 1, 2, 3];
    IntendedReplayUnfold(nodes, g0, order, 5);
    assert order[..5] == order;
  }

  /**
   * The corrected pass over L = o0 * o1: each output sends back its own row
   * once, and x0 ends with the derivative of L, 3/32, instead of twice it.
   */
  lemma SharedStepIntended()
    ensures WellFormed(SharedStep())
    ensures IntendedPass(SharedStep(), [0.0, 0.0, 0.0, 0.0, 0.0], 4) == Run([0.09375, -0.09375, 0.75, 0.25, 1.0], true)
  {
    SharedStepIntendedOrder();
    SharedStepIntendedReplay();
    assert [0.0, 0.0, 0.0, 0.0, 0.0][4 := 1.0] == [0.0, 0.0, 0.0, 0.0, 1.0];
  }

  /**
   * [o0, o1] = softmax([x0, x1]) with x1 = a * c, a = 1, c = 2 (nodes 0, 1
   * are a, c; 2 is x1; 3 is x0; 4, 5 are o0, o1). The probabilities 1/4 and
   * 3/4 are given, not computed from the exponentials (they would need
   * x1 - x0 = ln 3); x0's value plays no part in the backward pass.
   */
  function CutOff(): seq<Node>
  {
    [ Node(1.0, Op.Leaf), Node(2.0, Op.Leaf), Node(2.0, Op.Mul(0, 1)), Node(0.0, Op.Leaf),
      Node(0.25, Op.Softmax([3, 2], 4, 0)), Node(0.75, Op.Softmax([3, 2], 4, 1)) ]
  }

  lemma CutOffWellFormed()
    ensures WellFormed(CutOff()) && Acyclic(CutOff())
  {
    var nodes := CutOff();
    assert OutData(nodes, 4, 2) == [0.25, 0.75];
    assert Total([0.25, 0.75], 1) == 0.25;
    assert SoftmaxGroupOk(nodes, [3, 2], 4);
    assert NodeOk(nodes, 2) && NodeOk(nodes, 4) && NodeOk(nodes, 5);
    assert forall h :: 0 <= h < 6 ==> NodeOk(nodes, h);
    WellFormedAcyclic(nodes);
  }

  /** o0 lists only x0 as its parent, so build_topo from o0 never reaches x1, a or c. */
  lemma CutOffOrder()
    ensures WellFormed(CutOff()) && Acyclic(CutOff())
    ensures TopoOrder(CutOff(), 4) == [3, 4]
  {
    var nodes := CutOff();
    CutOffWellFormed();
    assert Parents(nodes[4].op) == [3];
    var t := Dfs(nodes, 3, Trace({4}, []));
    assert t == Trace({4, 3}, [3]);
    assert DfsParents(nodes, 4, 0, Trace({4}, [])) == t;
  }

  /** o0's step writes into x1, which o0 does not list as a parent and the intended wiring does. */
  lemma CutOffWiring()
    ensures 2 in Writes(CutOff()[4].op) && 2 !in Parents(CutOff()[4].op) && 2 in IntendedParents(CutOff()[4].op)
  {
    assert Parents(CutOff()[4].op) == [3];
  }

  /** The shared step run by o0 from the seed: x0 receives 3/16 and x1 -3/16. */
  lemma CutOffStep()
    ensures WellFormed(CutOff())
    ensures Step(CutOff(), [0.0, 0.0, 0.0, 0.0, 1.0, 0.0], 4) == Some([0.0, 0.0, -0.1875, 0.1875, 1.0, 0.0])
  {
    var nodes := CutOff();
    CutOffWellFormed();
    var g0 := [0.0, 0.0, 0.0, 0.0, 1.0, 0.0];
    assert OutData(nodes, 4, 2) == [0.25, 0.75];
    assert g0[4..6] == [1.0, 0.0];
    UpdatePair(g0, [3, 2], [0.25, 0.75], [1.0, 0.0], 0.25, [0.0, 0.0, -0.1875, 0.1875, 1.0, 0.0]);
  }

  /**
   * o0.backward() as written: the shared step sends -3/16 to x1, but x1's own
   * step never runs, so a and c keep a zero gradient although
   * dL/da = c * x1.grad = -3/8.
   */
  lemma SoftmaxInputCutOff()
    ensures WellFormed(CutOff())
    ensures BackwardSpec(CutOff(), [0.0, 0.0, 0.0, 0.0, 0.0, 0.0], 4) == Run([0.0, 0.0, -0.1875, 0.1875, 1.0, 0.0], true)
  {
    var nodes := CutOff();
    CutOffOrder();
    CutOffStep();
    var g0 := [0.0, 0.0, 0.0, 0.0, 1.0, 0.0];
    var g1 := [0.0, 0.0, -0.1875, 0.1875, 1.0, 0.0];
    assert [0.0, 0.0, 0.0, 0.0, 0.0, 0.0][4 := 1.0] == g0;
    assert Step(nodes, g1, 3) == Some(g1);
    var order := [3, 4];
    ReplayUnfold(nodes, g1, order, 1);
    assert order[..0] == [];
    ReplayUnfold(nodes, g0, order, 2);
    assert order[..2] == order;
  }

  /** The corrected traversal reaches x1 through o0 and visits a and c before it. */
  lemma CutOffIntendedRight()
    ensures WellFormed(CutOff()) && IntendedOlder(CutOff())
    ensures IntendedDfs(CutOff(), 2, Trace({4, 3}, [3])) == Trace({4, 3, 2, 0, 1}, [3, 0, 1, 2])
  {
    var nodes := CutOff();
    CutOffWellFormed();
    WellFormedIntendedOlder(nodes);
    assert IntendedParents(nodes[2].op) == [0, 1];
    var t2 := Trace({4, 3, 2}, [3]);
    var t3 := IntendedDfs(nodes, 0, t2);
    assert t3 == Trace({4, 3, 2, 0}, [3, 0]);
    var t4 := IntendedDfs(nodes, 1, t3);
    assert t4 == Trace({4, 3, 2, 0, 1}, [3, 0, 1]);
    assert IntendedDfsParents(nodes, 2, 1, t3) == t4;
    assert IntendedDfsParents(nodes, 2, 0, t2) == t4;
  }

  /** The corrected traversal from o0 lists both inputs: x0, then x1 after a and c. */
  lemma CutOffIntendedOrder()
    ensures WellFormed(CutOff())
    ensures IntendedOrder(CutOff(), 4) == [3, 0, 1, 2, 4]
  {
    var nodes := CutOff();
    CutOffIntendedRight();
    assert IntendedParents(nodes[4].op) == [3, 2];
    var t1 := Trace({4, 3}, [3]);
    assert IntendedDfs(nodes, 3, Trace({4}, [])) == t1;
    var t5 := Trace({4, 3, 2, 0, 1}, [3, 0, 1, 2]);
    assert IntendedDfsParents(nodes, 4, 1, t1) == t5;
    assert IntendedDfsParents(nodes, 4, 0, Trace({4}, [])) == t5;
    var t := Trace({}, []);
    assert Trace(t.visited + {4}, t.order) == Trace({4}, []);
    assert IntendedDfs(nodes, 4, t).order == [3, 0, 1, 2] + [4];
  }

  /** o0's row from the seed, then x1's step: a receives c * (-3/16) = -3/8. */
  lemma CutOffIntendedSteps()
    ensures WellFormed(CutOff())
    ensures IntendedStep(CutOff(), [0.0, 0.0, 0.0, 0.0, 1.0, 0.0], 4) == Some([0.0, 0.0, -0.1875, 0.1875, 1.0, 0.0])
    ensures IntendedStep(CutOff(), [0.0, 0.0, -0.1875, 0.1875, 1.0, 0.0], 2) == Some([-0.375, -0.1875, -0.1875, 0.1875, 1.0, 0.0])
  {
    var nodes := CutOff();
    CutOffWellFormed();
    var s, og := [0.25, 0.75], [1.0, 0.0];
    assert OutData(nodes, 4, 2) == s;
    var g0, g1 := [0.0, 0.0, 0.0, 0.0, 1.0, 0.0], [0.0, 0.0, -0.1875, 0.1875, 1.0, 0.0];
    assert g0[4..6] == og;
    assert SoftmaxGroupOk(nodes, [3, 2], 4);
    RowStepPair(nodes, g0, [3, 2], 4, 0, s, og, g1);
    StepMulUnfold(nodes, g1, 2, 0, 1, 1.0, 2.0, -0.1875);
    assert AddTo(AddTo(g1, 0, 2.0 * -0.1875), 1, 1.0 * -0.1875) == [-0.375, -0.1875, -0.1875, 0.1875, 1.0, 0.0];
  }

  /** The leaves x0, a and c, first in the corrected order, keep their gradients. */
  lemma CutOffIntendedHead()
    ensures WellFormed(CutOff())
    ensures InArena(CutOff(), [3, 0, 1])
    ensures IntendedReplay(CutOff(), [-0.375, -0.1875, -0.1875, 0.1875, 1.0, 0.0], [3, 0, 1]) == Run([-0.375, -0.1875, -0.1875, 0.1875, 1.0, 0.0], true)
  {
    var nodes := CutOff();
    CutOffWellFormed();
    var g2 := [-0.375, -0.1875, -0.1875, 0.1875, 1.0, 0.0];
    StepLeafUnfold(nodes, g2, 0);
    StepLeafUnfold(nodes, g2, 1);
    StepLeafUnfold(nodes, g2, 3);
    var order := [3, 0, 1];
    assert order[..0] == [];
    IntendedReplayUnfold(nodes, g2, order, 1);
    IntendedReplayUnfold(nodes, g2, order, 2);
    IntendedReplayUnfold(nodes, g2, order, 3);
    assert order[..3] == order;
  }

  /** x1's step, then the leaves. */
  lemma CutOffIntendedTail()
    ensures WellFormed(CutOff())
    ensures InArena(CutOff(), [3, 0, 1, 2])
    ensures IntendedReplay(CutOff(), [0.0, 0.0, -0.1875, 0.1875, 1.0, 0.0], [3, 0, 1, 2]) == Run([-0.375, -0.1875, -0.1875, 0.1875, 1.0, 0.0], true)
  {
    var nodes := CutOff();
    CutOffIntendedSteps();
    CutOffIntendedHead();
    var order := [3, 0, 1, 2];
    assert order[..3] == [3, 0, 1];
    IntendedReplayUnfold(nodes, [0.0, 0.0, -0.1875, 0.1875, 1.0, 0.0], order, 4);
    assert order[..4] == order;
  }

  /** The corrected replay from the seed: o0's row, then the rest. */
  lemma CutOffIntendedReplay()
    ensures WellFormed(CutOff())
    ensures IntendedReplay(CutOff(), [0.0, 0.0, 0.0, 0.0, 1.0, 0.0], [3, 0, 1, 2, 4]) == Run([-0.375, -0.1875, -0.1875, 0.1875, 1.0, 0.0], true)
  {
    var nodes := CutOff();
    CutOffIntendedSteps();
    CutOffIntendedTail();
    var order := [3, 0, 1, 2, 4];
    assert order[..4] == [3, 0, 1, 2];
    IntendedReplayUnfold(nodes, [0.0, 0.0, 0.0, 0.0, 1.0, 0.0], order, 5);
    assert order[..5] == order;
  }

  /**
   * The corrected o0.backward(): x1 is in the order, its step runs after
   * o0's, and a receives dL/da = c * x1.grad = -3/8.
   */
  lemma CutOffIntended()
    ensures WellFormed(CutOff())
    ensures IntendedPass(CutOff(), [0.0, 0.0, 0.0, 0.0, 0.0, 0.0], 4) == Run([-0.375, -0.1875, -0.1875, 0.1875, 1.0, 0.0], true)
  {
    CutOffIntendedOrder();
    CutOffIntendedReplay();
    assert [0.0, 0.0, 0.0, 0.0, 0.0, 0.0][4 := 1.0] == [0.0, 0.0, 0.0, 0.0, 1.0, 0.0];
  }

  /** y = tanh(x) at x = 0, where tanh gives t = 0: node 0 is x, node 1 is y. */
  function TanhAtZero(): seq<Node>
  {
    [Node(0.0, Op.Leaf), Node(0.0, Op.Tanh(0))]
  }

  lemma TanhAtZeroOrder()
    ensures WellFormed(TanhAtZero()) && Acyclic(TanhAtZero())
    ensures TopoOrder(TanhAtZero(), 1) == [0, 1]
  {
    var nodes := TanhAtZero();
    assert NodeOk(nodes, 0) && NodeOk(nodes, 1);
    assert Parents(nodes[1].op) == [0];
    WellFormedAcyclic(nodes);
    var t1 := Trace({1}, []);
    assert Dfs(nodes, 0, t1) == Trace({1, 0}, [0]);
    assert DfsParents(nodes, 1, 0, t1) == Trace({1, 0}, [0]);
  }

  /** y's step sends (1 - t * t) * y.grad = 1 to x. */
  lemma TanhAtZeroStep()
    ensures WellFormed(TanhAtZero())
    ensures Step(TanhAtZero(), [0.0, 1.0], 1) == Some([1.0, 1.0])
  {
    var nodes := TanhAtZero();
    TanhAtZeroOrder();
    var g0 := [0.0, 1.0];
    StepTanhUnfold(nodes, g0, 1, 0, 0.0, 1.0);
    assert AddTo(g0, 0, (1.0 - 0.0 * 0.0) * 1.0) == [1.0, 1.0];
  }

  /** The replay of y's order from the seeded gradients: y's step, then x's. */
  lemma TanhAtZeroReplay()
    ensures WellFormed(TanhAtZero())
    ensures Replay(TanhAtZero(), [0.0, 1.0], [0, 1]) == Run([1.0, 1.0], true)
  {
    var nodes := TanhAtZero();
    TanhAtZeroStep();
    var g0 := [0.0, 1.0];
    var g1 := [1.0, 1.0];
    assert Step(nodes, g1, 0) == Some(g1);
    var order := [0, 1];
    ReplayUnfold(nodes, g1, order, 1);
    assert order[..0] == [];
    ReplayUnfold(nodes, g0, order, 2);
    assert order[..2] == order;
  }

  /** y.backward() gives x.grad == 1 - 0 * 0 == 1. */
  lemma TanhAtZeroGrad()
    ensures WellFormed(TanhAtZero())
    ensures BackwardSpec(TanhAtZero(), [0.0, 0.0], 1) == Run([1.0, 1.0], true)
  {
    TanhAtZeroOrder();
    TanhAtZeroReplay();
    assert [0.0, 0.0][1 := 1.0] == [0.0, 1.0];
  }

  /** The same through the Graph class: x = Value(0.0); y = x.tanh(); y.backward(). */
  method TanhAtZeroOnGraph() returns (d: real)
    ensures d == 1.0
  {
    var g := new Engine.Graph();
    var x := g.Leaf(0.0);
    var y := g.Tanh(x, 0.0);
    assert g.nodes == TanhAtZero() && g.grad == [0.0, 0.0];
    TanhAtZeroGrad();
    var ok := g.Backward(y);
    d := g.grad[x];
  }

  /** softmax of two equal inputs (equal exponentials e) gives [0.5, 0.5]. */
  method SoftmaxEqualInputs(e: real) returns (p: real, q: real)
    requires e > 0.0
    ensures p == 0.5 && q == 0.5
  {
    var g := new Engine.Graph();
    var x := g.Leaf(1.0);
    var y := g.Leaf(1.0);
    var r := g.Softmax([x, y], [e, e]);
    assert Total([e, e], 1) == e;
    assert Total([e, e], 2) == e + e;
    assert e / (e + e) == 0.5;
    p := g.nodes[r.value[0]].data;
    q := g.nodes[r.value[1]].data;
  }
}

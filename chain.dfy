/**
 * The backward step of each node (the `_backward` closures of grad_eng.py),
 * as a function from the gradient vector before the step to the one after.
 * `None` stands for the ZeroDivisionError a step can raise.
 */
module Chain {
  import opened Values
  import SoftmaxGrad

  /** `g[u] += x`. */
  function AddTo(g: seq<real>, u: Handle, x: real): seq<real>
    requires u < |g|
  {
    g[u := g[u] + x]
  }

  /**
   * The nodes whose gradient the step of a node with this op may change: its
   * operands, except that the step a softmax output runs is the one shared by
   * the whole call and writes into every input of the call.
   */
  function Writes(op: Op): seq<Handle>
  {
    match op
    case Softmax(ins, _, _) => ins
    case _ => Operands(op)
  }

  /** Every node a step writes into is older than the node that runs it. */
  lemma WritesOlder(nodes: seq<Node>, h: Handle)
    requires WellFormed(nodes) && h < |nodes|
    ensures forall w :: w in Writes(nodes[h].op) ==> w < h
  {
    assert NodeOk(nodes, h);
    match nodes[h].op
    case Softmax(ins, first, k) =>
      assert forall j :: 0 <= j < |ins| ==> ins[j] < first;
    case _ =>
  }

  /** The step of a pow node fails only for x ** 0 at x == 0, where it evaluates 0 * 0.0 ** -1. */
  predicate StepFails(nodes: seq<Node>, h: Handle)
    requires h < |nodes|
  {
    nodes[h].op.Pow? && nodes[h].op.base < |nodes|
    && nodes[nodes[h].op.base].data == 0.0 && nodes[h].op.exponent < 1
  }

  /**
   * Run the backward step of node h on gradients g (each op's `_backward`,
   * grad_eng.py:31-34, 43-46, 55-57, 69-71, 84-86, 107-113). The node's own
   * gradient `out.grad` is g[h]; contributions are added, never assigned.
   */
  ghost function Step(nodes: seq<Node>, g: seq<real>, h: Handle): (r: Option<seq<real>>)
    requires WellFormed(nodes) && |g| == |nodes| && h < |nodes|
    ensures r.None? <==> StepFails(nodes, h)
    ensures r.None? ==> nodes[h].op.exponent == 0
    ensures r.Some? ==> |r.value| == |g|
    ensures r.Some? ==> forall u :: 0 <= u < |g| && u !in Writes(nodes[h].op) ==> r.value[u] == g[u]
  {
    assert NodeOk(nodes, h);
    var out := g[h];
    match nodes[h].op
    case Leaf => Some(g)
    case Add(a, b) => Some(AddTo(AddTo(g, a, out), b, out))
    case Mul(a, b) => Some(AddTo(AddTo(g, a, nodes[b].data * out), b, nodes[a].data * out))
    case Pow(a, e) =>
      if nodes[a].data == 0.0 && e < 1 then None
      else Some(AddTo(g, a, PowSlope(nodes[a].data, e) * out))
    case Relu(a) => Some(AddTo(g, a, (if nodes[a].data > 0.0 then 1.0 else 0.0) * out))
    case Tanh(a) =>
      var t := nodes[h].data;
      Some(AddTo(g, a, (1.0 - t * t) * out))
    case Softmax(ins, first, _) =>
      var n := |ins|;
      Some(SoftmaxGrad.Update(g, ins, OutData(nodes, first, n), g[first..first + n]))
  }

  /*
   * The steps that scale the node's gradient out, written out with out as a
   * parameter (the backward loop reads out.grad once per step).
   */

  lemma StepLeafUnfold(nodes: seq<Node>, g: seq<real>, h: Handle)
    requires WellFormed(nodes) && |g| == |nodes| && h < |nodes| && nodes[h].op == Leaf
    ensures Step(nodes, g, h) == Some(g)
  {
  }

  lemma StepAddUnfold(nodes: seq<Node>, g: seq<real>, h: Handle, a: Handle, b: Handle, out: real)
    requires WellFormed(nodes) && |g| == |nodes| && h < |nodes| && nodes[h].op == Add(a, b) && out == g[h]
    ensures a < |g| && b < |g|
    ensures Step(nodes, g, h) == Some(AddTo(AddTo(g, a, out), b, out))
  {
    assert NodeOk(nodes, h);
  }

  lemma StepMulUnfold(nodes: seq<Node>, g: seq<real>, h: Handle, a: Handle, b: Handle, da: real, db: real, out: real)
    requires WellFormed(nodes) && |g| == |nodes| && h < |nodes| && nodes[h].op == Mul(a, b)
    requires a < |nodes| && b < |nodes| && da == nodes[a].data && db == nodes[b].data && out == g[h]
    ensures Step(nodes, g, h) == Some(AddTo(AddTo(g, a, db * out), b, da * out))
  {
    assert NodeOk(nodes, h);
    var st := Step(nodes, g, h).value;
    var r := AddTo(AddTo(g, a, db * out), b, da * out);
    forall u | 0 <= u < |g| ensures st[u] == r[u] {
      if a == b {
        if u == a {
          assert st[u] == g[a] + db * out + da * out;
        }
      } else if u == a {
        assert st[u] == g[a] + db * out;
      }
    }
    assert st == r;
  }

  lemma StepPowUnfold(nodes: seq<Node>, g: seq<real>, h: Handle, a: Handle, e: int, slope: real, out: real)
    requires WellFormed(nodes) && |g| == |nodes| && h < |nodes| && nodes[h].op == Pow(a, e) && out == g[h]
    requires a < |nodes| && (nodes[a].data != 0.0 || e >= 1) && slope == PowSlope(nodes[a].data, e)
    ensures Step(nodes, g, h) == Some(AddTo(g, a, slope * out))
  {
    assert NodeOk(nodes, h);
    var st := Step(nodes, g, h).value;
    var r := AddTo(g, a, slope * out);
    assert st[a] == r[a];
    assert forall u :: 0 <= u < |g| ==> st[u] == r[u];
    assert st == r;
  }

  lemma StepReluUnfold(nodes: seq<Node>, g: seq<real>, h: Handle, a: Handle, slope: real, out: real)
    requires WellFormed(nodes) && |g| == |nodes| && h < |nodes| && nodes[h].op == Relu(a) && out == g[h]
    requires a < |nodes| && slope == (if nodes[a].data > 0.0 then 1.0 else 0.0)
    ensures Step(nodes, g, h) == Some(AddTo(g, a, slope * out))
  {
    assert NodeOk(nodes, h);
    var st := Step(nodes, g, h).value;
    var r := AddTo(g, a, slope * out);
    assert st[a] == r[a];
    assert forall u :: 0 <= u < |g| ==> st[u] == r[u];
    assert st == r;
  }

  lemma StepTanhUnfold(nodes: seq<Node>, g: seq<real>, h: Handle, a: Handle, t: real, out: real)
    requires WellFormed(nodes) && |g| == |nodes| && h < |nodes| && nodes[h].op == Tanh(a) && out == g[h]
    requires t == nodes[h].data
    ensures a < |g|
    ensures Step(nodes, g, h) == Some(AddTo(g, a, (1.0 - t * t) * out))
  {
    assert NodeOk(nodes, h);
    var st := Step(nodes, g, h).value;
    var r := AddTo(g, a, (1.0 - t * t) * out);
    assert st[a] == r[a];
    assert forall u :: 0 <= u < |g| ==> st[u] == r[u];
    assert st == r;
  }

  /**
   * The local derivative d nodes[h] / d nodes[u] that the step of a
   * single-output node h applies: it adds g[h] * Coef(nodes, h, u) to g[u].
   */
  ghost function Coef(nodes: seq<Node>, h: Handle, u: Handle): (r: real)
    requires WellFormed(nodes) && h < |nodes| && !nodes[h].op.Softmax?
    ensures r != 0.0 ==> u in Parents(nodes[h].op)
  {
    assert NodeOk(nodes, h);
    match nodes[h].op
    case Leaf => 0.0
    case Add(a, b) => (if a == u then 1.0 else 0.0) + (if b == u then 1.0 else 0.0)
    case Mul(a, b) => (if a == u then nodes[b].data else 0.0) + (if b == u then nodes[a].data else 0.0)
    case Pow(a, e) =>
      if a == u && (nodes[a].data != 0.0 || e >= 1) then PowSlope(nodes[a].data, e) else 0.0
    case Relu(a) => if a == u && nodes[a].data > 0.0 then 1.0 else 0.0
    case Tanh(a) => var t := nodes[h].data; if a == u then 1.0 - t * t else 0.0
  }

  /** What the step of a single-output node h sends to u when h's gradient is out. */
  ghost function Share(nodes: seq<Node>, out: real, h: Handle, u: Handle): real
    requires WellFormed(nodes) && h < |nodes| && !nodes[h].op.Softmax?
  {
    out * Coef(nodes, h, u)
  }

  /**
   * Every single-output step is the chain rule: it adds the node's gradient
   * times the local derivative to each operand, and leaves every other
   * gradient alone.
   */
  lemma StepIsChainRule(nodes: seq<Node>, g: seq<real>, h: Handle)
    requires WellFormed(nodes) && |g| == |nodes| && h < |nodes| && !nodes[h].op.Softmax?
    requires !StepFails(nodes, h)
    ensures Step(nodes, g, h).Some?
    ensures forall u :: 0 <= u < |g| ==> Step(nodes, g, h).value[u] == g[u] + Share(nodes, g[h], h, u)
  {
    assert NodeOk(nodes, h);
    forall u | 0 <= u < |g| ensures Step(nodes, g, h).value[u] == g[u] + Share(nodes, g[h], h, u) {
      ChainRuleAt(nodes, g, h, u);
    }
  }

  lemma ChainRuleAt(nodes: seq<Node>, g: seq<real>, h: Handle, u: Handle)
    requires WellFormed(nodes) && |g| == |nodes| && h < |nodes| && !nodes[h].op.Softmax?
    requires !StepFails(nodes, h) && u < |g|
    ensures Step(nodes, g, h).Some?
    ensures Step(nodes, g, h).value[u] == g[u] + g[h] * Coef(nodes, h, u)
  {
    match nodes[h].op
    case Leaf =>
    case Add(a, b) => ChainRuleAdd(nodes, g, h, u, a, b);
    case Mul(a, b) => ChainRuleMul(nodes, g, h, u, a, b);
    case Pow(a, e) => ChainRulePow(nodes, g, h, u, a, e);
    case Relu(a) => ChainRuleRelu(nodes, g, h, u, a);
    case Tanh(a) => ChainRuleTanh(nodes, g, h, u, a);
  }

  lemma ChainRuleAdd(nodes: seq<Node>, g: seq<real>, h: Handle, u: Handle, a: Handle, b: Handle)
    requires WellFormed(nodes) && |g| == |nodes| && h < |nodes| && nodes[h].op == Add(a, b) && u < |g|
    ensures Step(nodes, g, h).Some? && Step(nodes, g, h).value[u] == g[u] + g[h] * Coef(nodes, h, u)
  {
    assert NodeOk(nodes, h);
  }

  lemma ChainRuleMul(nodes: seq<Node>, g: seq<real>, h: Handle, u: Handle, a: Handle, b: Handle)
    requires WellFormed(nodes) && |g| == |nodes| && h < |nodes| && nodes[h].op == Mul(a, b) && u < |g|
    ensures Step(nodes, g, h).Some? && Step(nodes, g, h).value[u] == g[u] + g[h] * Coef(nodes, h, u)
  {
    assert NodeOk(nodes, h);
  }

  lemma ChainRulePow(nodes: seq<Node>, g: seq<real>, h: Handle, u: Handle, a: Handle, e: int)
    requires WellFormed(nodes) && |g| == |nodes| && h < |nodes| && nodes[h].op == Pow(a, e) && u < |g|
    requires !StepFails(nodes, h)
    ensures Step(nodes, g, h).Some? && Step(nodes, g, h).value[u] == g[u] + g[h] * Coef(nodes, h, u)
  {
    assert NodeOk(nodes, h);
  }

  lemma ChainRuleRelu(nodes: seq<Node>, g: seq<real>, h: Handle, u: Handle, a: Handle)
    requires WellFormed(nodes) && |g| == |nodes| && h < |nodes| && nodes[h].op == Relu(a) && u < |g|
    ensures Step(nodes, g, h).Some? && Step(nodes, g, h).value[u] == g[u] + g[h] * Coef(nodes, h, u)
  {
    assert NodeOk(nodes, h);
  }

  lemma ChainRuleTanh(nodes: seq<Node>, g: seq<real>, h: Handle, u: Handle, a: Handle)
    requires WellFormed(nodes) && |g| == |nodes| && h < |nodes| && nodes[h].op == Tanh(a) && u < |g|
    ensures Step(nodes, g, h).Some? && Step(nodes, g, h).value[u] == g[u] + g[h] * Coef(nodes, h, u)
  {
    assert NodeOk(nodes, h);
  }

  /** The softmax step adds, to each node, the sum over its input positions of the closed-form column. */
  lemma SoftmaxStepClosedForm(nodes: seq<Node>, g: seq<real>, h: Handle, j: nat)
    requires WellFormed(nodes) && |g| == |nodes| && h < |nodes| && nodes[h].op.Softmax?
    requires j < |nodes[h].op.inputs|
    requires SoftmaxGroupOk(nodes, nodes[h].op.inputs, nodes[h].op.first)
    requires var ins := nodes[h].op.inputs; forall k :: 0 <= k < |ins| && k != j ==> ins[k] != ins[j]
    ensures var ins, first := nodes[h].op.inputs, nodes[h].op.first;
            var s, og := OutData(nodes, first, |ins|), g[first..first + |ins|];
            Step(nodes, g, h).value[ins[j]] == g[ins[j]] + s[j] * (og[j] - SoftmaxGrad.Dot(s, og, |s|))
  {
    assert NodeOk(nodes, h);
    var ins, first := nodes[h].op.inputs, nodes[h].op.first;
    var s, og := OutData(nodes, first, |ins|), g[first..first + |ins|];
    SoftmaxGrad.InflowSingle(ins, s, og, j, |s|, |s|);
    SoftmaxGrad.ColumnClosedForm(s, og, j);
  }

  /**
   * The outputs of a softmax call are probabilities, so whatever gradients
   * they carry, what the shared step hands to the input positions sums to
   * zero: the step ignores a common shift of the inputs.
   */
  lemma SoftmaxStepShiftInvariant(nodes: seq<Node>, g: seq<real>, h: Handle)
    requires WellFormed(nodes) && |g| == |nodes| && h < |nodes| && nodes[h].op.Softmax?
    ensures var ins, first := nodes[h].op.inputs, nodes[h].op.first;
            first + |ins| <= |g| &&
            SoftmaxGrad.ColumnTotal(OutData(nodes, first, |ins|), g[first..first + |ins|], |ins|) == 0.0
  {
    assert NodeOk(nodes, h);
    var ins, first := nodes[h].op.inputs, nodes[h].op.first;
    SoftmaxGrad.ShiftInvariance(OutData(nodes, first, |ins|), g[first..first + |ins|]);
  }
}

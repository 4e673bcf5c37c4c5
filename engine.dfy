/**
 * The engine as the Python program runs it: every `Value` object of one
 * computation lives in a `Graph` arena, each operator appends the nodes it
 * creates, and `backward` updates the gradients in place.
 */
module Engine {
  import opened Values
  import opened Chain
  import Topo
  import SoftmaxGrad
  import opened Backprop

  class Graph {
    /** The Value objects created so far, oldest first: forward value and producing operation. */
    var nodes: seq<Node>
    /** `v.grad` of every Value, indexed like nodes. */
    var grad: seq<real>

    ghost predicate Valid()
      reads this
    {
      WellFormed(nodes) && Acyclic(nodes) && |grad| == |nodes|
    }

    /** The arena holds old_nodes followed by `added` new nodes, each with gradient 0. */
    ghost predicate Grew(old_nodes: seq<Node>, old_grad: seq<real>, added: nat)
      reads this
    {
      && |nodes| == |old_nodes| + added
      && nodes[..|old_nodes|] == old_nodes
      && grad == old_grad + seq(added, _ => 0.0)
    }

    constructor ()
      ensures Valid() && nodes == [] && grad == []
    {
      nodes := [];
      grad := [];
    }

    /** `Value.__init__`: a new node with gradient 0.0. */
    method NewValue(x: Node) returns (h: Handle)
      requires Valid() && NodeOk(nodes + [x], |nodes|)
      modifies this
      ensures Valid() && Grew(old(nodes), old(grad), 1)
      ensures h == old(|nodes|) && nodes[h] == x
    {
      AppendWellFormed(nodes, x);
      WellFormedAcyclic(nodes + [x]);
      h := |nodes|;
      nodes := nodes + [x];
      grad := grad + [0.0];
    }

    /** `Value(data)`: a leaf. */
    method Leaf(data: real) returns (h: Handle)
      requires Valid()
      modifies this
      ensures Valid() && Grew(old(nodes), old(grad), 1)
      ensures h == old(|nodes|) && nodes[h] == Node(data, Op.Leaf)
    {
      h := NewValue(Node(data, Op.Leaf));
    }

    /** `other if isinstance(other, Value) else Value(other)`. */
    method Promote(x: Operand<real>) returns (h: Handle)
      requires Valid() && (x.Ref? ==> x.h < |nodes|)
      modifies this
      ensures Valid()
      ensures x.Ref? ==> h == x.h && nodes == old(nodes) && grad == old(grad)
      ensures x.Num? ==> Grew(old(nodes), old(grad), 1) && h == old(|nodes|) && nodes[h] == Node(x.c, Op.Leaf)
    {
      if x.Ref? {
        h := x.h;
      } else {
        h := Leaf(x.c);
      }
    }

    /** `self + other` (`__add__`). */
    method Add(a: Handle, b: Operand<real>) returns (h: Handle)
      requires Valid() && a < |nodes| && (b.Ref? ==> b.h < |nodes|)
      modifies this
      ensures Valid() && Grew(old(nodes), old(grad), if b.Num? then 2 else 1) && h == |nodes| - 1
      ensures var rhs := if b.Ref? then b.h else h - 1;
              nodes[h] == Node(nodes[a].data + nodes[rhs].data, Op.Add(a, rhs))
      ensures b.Num? ==> nodes[h - 1] == Node(b.c, Op.Leaf)
    {
      var other := Promote(b);
      h := NewValue(Node(nodes[a].data + nodes[other].data, Op.Add(a, other)));
    }

    /** `self * other` (`__mul__`). */
    method Mul(a: Handle, b: Operand<real>) returns (h: Handle)
      requires Valid() && a < |nodes| && (b.Ref? ==> b.h < |nodes|)
      modifies this
      ensures Valid() && Grew(old(nodes), old(grad), if b.Num? then 2 else 1) && h == |nodes| - 1
      ensures var rhs := if b.Ref? then b.h else h - 1;
              nodes[h] == Node(nodes[a].data * nodes[rhs].data, Op.Mul(a, rhs))
      ensures b.Num? ==> nodes[h - 1] == Node(b.c, Op.Leaf)
    {
      var other := Promote(b);
      h := NewValue(Node(nodes[a].data * nodes[other].data, Op.Mul(a, other)));
    }

    /**
     * `self ** exponent` (`__pow__`): the exponent must be a number, and
     * zero to a negative power raises.
     */
    method Pow(a: Handle, e: Operand<int>) returns (r: Result<Handle>)
      requires Valid() && a < |nodes|
      modifies this
      ensures Valid()
      ensures e.Ref? ==> r == Err(InvalidOperand)
      ensures e.Num? && old(nodes)[a].data == 0.0 && e.c < 0 ==> r == Err(DivisionByZero)
      ensures r.Err? ==> nodes == old(nodes) && grad == old(grad)
      ensures r.Ok? <==> e.Num? && (old(nodes)[a].data != 0.0 || e.c >= 0)
      ensures r.Ok? ==> Grew(old(nodes), old(grad), 1) && r.value == old(|nodes|)
                        && nodes[r.value] == Node(Power(nodes[a].data, e.c), Op.Pow(a, e.c))
    {
      if e.Ref? {
        return Err(InvalidOperand);
      }
      if nodes[a].data == 0.0 && e.c < 0 {
        return Err(DivisionByZero);
      }
      var h := NewValue(Node(Power(nodes[a].data, e.c), Op.Pow(a, e.c)));
      r := Ok(h);
    }

    /** `self.relu()`. */
    method Relu(a: Handle) returns (h: Handle)
      requires Valid() && a < |nodes|
      modifies this
      ensures Valid() && Grew(old(nodes), old(grad), 1) && h == old(|nodes|)
      ensures nodes[h] == Node(Max0(nodes[a].data), Op.Relu(a))
    {
      h := NewValue(Node(Max0(nodes[a].data), Op.Relu(a)));
    }

    /** `self.tanh()`; t is the value math.tanh returns for the node's value. */
    method Tanh(a: Handle, t: real) returns (h: Handle)
      requires Valid() && a < |nodes|
      modifies this
      ensures Valid() && Grew(old(nodes), old(grad), 1) && h == old(|nodes|)
      ensures nodes[h] == Node(t, Op.Tanh(a))
    {
      h := NewValue(Node(t, Op.Tanh(a)));
    }
  
    /** `-self` (`__neg__`): self * -1. */
    method Neg(a: Handle) returns (h: Handle)
      requires Valid() && a < |nodes|
      modifies this
      ensures Valid() && Grew(old(nodes), old(grad), 2) && h == |nodes| - 1
      ensures nodes[h].data == -nodes[a].data
      ensures nodes[h] == Node(nodes[h].data, Op.Mul(a, h - 1)) && nodes[h - 1] == Node(-1.0, Op.Leaf)
    {
      h := Mul(a, Num(-1.0));
    }

    /** `self - other` (`__sub__`): self + (-other); a number is negated before it is wrapped. */
    method Sub(a: Handle, b: Operand<real>) returns (h: Handle)
      requires Valid() && a < |nodes| && (b.Ref? ==> b.h < |nodes|)
      modifies this
      ensures Valid() && Grew(old(nodes), old(grad), if b.Ref? then 3 else 2) && h == |nodes| - 1
      ensures nodes[h].data == nodes[a].data - (if b.Ref? then nodes[b.h].data else b.c)
      ensures nodes[h].op == Op.Add(a, h - 1)
      ensures b.Ref? ==> nodes[h - 1] == Node(-nodes[b.h].data, Op.Mul(b.h, h - 2))
                         && nodes[h - 2] == Node(-1.0, Op.Leaf)
      ensures b.Num? ==> nodes[h - 1] == Node(-b.c, Op.Leaf)
    {
      if b.Ref? {
        var n := Neg(b.h);
        h := Add(a, Ref(n));
      } else {
        h := Add(a, Num(-b.c));
      }
    }

    /** `other - self` for a number other (`__rsub__`): (-self) + other. */
    method RSub(a: Handle, c: real) returns (h: Handle)
      requires Valid() && a < |nodes|
      modifies this
      ensures Valid() && Grew(old(nodes), old(grad), 4) && h == |nodes| - 1
      ensures nodes[h].data == c - nodes[a].data
      ensures nodes[h].op == Op.Add(h - 2, h - 1)
      ensures nodes[h - 3] == Node(-1.0, Op.Leaf)
      ensures nodes[h - 2] == Node(-nodes[a].data, Op.Mul(a, h - 3))
      ensures nodes[h - 1] == Node(c, Op.Leaf)
    {
      var n := Neg(a);
      h := Add(n, Num(c));
    }

    /**
     * `self / other` (`__truediv__`): self * other ** -1. Division by a node
     * whose value is zero, or by the number zero, raises.
     */
    method TrueDiv(a: Handle, b: Operand<real>) returns (r: Result<Handle>)
      requires Valid() && a < |nodes| && (b.Ref? ==> b.h < |nodes|)
      modifies this
      ensures Valid()
      ensures var d := if b.Ref? then old(nodes)[b.h].data else b.c;
              r.Ok? <==> d != 0.0
      ensures r.Err? ==> r.error == DivisionByZero && nodes == old(nodes) && grad == old(grad)
      ensures r.Ok? ==> Grew(old(nodes), old(grad), 2) && r.value == |nodes| - 1
      ensures r.Ok? ==> nodes[r.value].data == nodes[a].data / (if b.Ref? then nodes[b.h].data else b.c)
      ensures r.Ok? ==> nodes[r.value].op == Op.Mul(a, r.value - 1)
      ensures r.Ok? && b.Ref? ==> nodes[r.value - 1] == Node(Power(nodes[b.h].data, -1), Op.Pow(b.h, -1))
      ensures r.Ok? && b.Num? ==> nodes[r.value - 1] == Node(1.0 / b.c, Op.Leaf)
    {
      if b.Ref? {
        var p := Pow(b.h, Num(-1));
        if p.Err? {
          return p;
        }
        var h := Mul(a, Ref(p.value));
        PowerStep(nodes[b.h].data, 0);
        r := Ok(h);
      } else {
        if b.c == 0.0 {
          return Err(DivisionByZero);
        }
        var h := Mul(a, Num(1.0 / b.c));
        r := Ok(h);
      }
    }

    /** `other / self` for a number other (`__rtruediv__`): self ** -1 * other. */
    method RTrueDiv(a: Handle, c: real) returns (r: Result<Handle>)
      requires Valid() && a < |nodes|
      modifies this
      ensures Valid()
      ensures r.Ok? <==> old(nodes)[a].data != 0.0
      ensures r.Err? ==> r.error == DivisionByZero && nodes == old(nodes) && grad == old(grad)
      ensures r.Ok? ==> Grew(old(nodes), old(grad), 3) && r.value == |nodes| - 1
      ensures r.Ok? ==> nodes[r.value].data == c / nodes[a].data
      ensures r.Ok? ==> nodes[r.value].op == Op.Mul(r.value - 2, r.value - 1)
      ensures r.Ok? ==> nodes[r.value - 2] == Node(Power(nodes[a].data, -1), Op.Pow(a, -1))
      ensures r.Ok? ==> nodes[r.value - 1] == Node(c, Op.Leaf)
    {
      var p := Pow(a, Num(-1));
      if p.Err? {
        return p;
      }
      PowerStep(nodes[a].data, 0);
      var h := Mul(p.value, Num(c));
      r := Ok(h);
    }

    /** `other + self` for a number other (`__radd__`): self + other. */
    method RAdd(a: Handle, c: real) returns (h: Handle)
      requires Valid() && a < |nodes|
      modifies this
      ensures Valid() && Grew(old(nodes), old(grad), 2) && h == |nodes| - 1
      ensures nodes[h] == Node(nodes[a].data + c, Op.Add(a, h - 1)) && nodes[h - 1] == Node(c, Op.Leaf)
    {
      h := Add(a, Num(c));
    }

    /** `other * self` for a number other (`__rmul__`): self * other. */
    method RMul(a: Handle, c: real) returns (h: Handle)
      requires Valid() && a < |nodes|
      modifies this
      ensures Valid() && Grew(old(nodes), old(grad), 2) && h == |nodes| - 1
      ensures nodes[h] == Node(nodes[a].data * c, Op.Mul(a, h - 1)) && nodes[h - 1] == Node(c, Op.Leaf)
    {
      h := Mul(a, Num(c));
    }

    /**
     * `Value.softmax(values)`: exps[i] stands for math.exp(values[i].data - max),
     * which is positive; output i has value exps[i] / sum(exps) and lists only
     * values[i] as its child. An empty list raises (max of nothing).
     */
    method Softmax(values: seq<Handle>, exps: seq<real>) returns (r: Result<seq<Handle>>)
      requires Valid() && |exps| == |values|
      requires forall j :: 0 <= j < |values| ==> values[j] < |nodes|
      requires forall j :: 0 <= j < |exps| ==> exps[j] > 0.0
      modifies this
      ensures Valid()
      ensures r.Err? <==> values == []
      ensures r.Err? ==> r.error == EmptyInput && nodes == old(nodes) && grad == old(grad)
      ensures r.Ok? ==> Grew(old(nodes), old(grad), |values|)
      ensures r.Ok? ==> |r.value| == |values|
                        && forall k :: 0 <= k < |values| ==> r.value[k] == old(|nodes|) + k
      ensures r.Ok? ==> Total(exps, |exps|) > 0.0 && forall k :: 0 <= k < |values| ==>
                          nodes[old(|nodes|) + k] == Node(exps[k] / Total(exps, |exps|), Op.Softmax(values, old(|nodes|), k))
    {
      if values == [] {
        return Err(EmptyInput);
      }
      var n := |values|;
      var sum := SumExps(exps);
      TotalPositive(exps, n);
      var probs := seq(n, k requires 0 <= k < n => exps[k] / sum);
      TotalScaled(exps, probs, sum, n);
      assert Total(exps, n) / sum == 1.0;
      AppendSoftmaxWellFormed(nodes, values, probs);
      var out := AppendOutputs(values, probs);
      WellFormedAcyclic(nodes);
      r := Ok(out);
    }

    /** `sum(exps)`, left to right. */
    method SumExps(exps: seq<real>) returns (sum: real)
      ensures sum == Total(exps, |exps|)
    {
      sum := 0.0;
      var i := 0;
      while i < |exps|
        invariant 0 <= i <= |exps| && sum == Total(exps, i)
      {
        sum := sum + exps[i];
        i := i + 1;
      }
    }

    /** The loop that appends one output per input, output i with probability probs[i]. */
    method AppendOutputs(values: seq<Handle>, probs: seq<real>) returns (out: seq<Handle>)
      requires |probs| == |values|
      modifies this
      ensures nodes == old(nodes) + SoftmaxGroup(values, old(|nodes|), probs)
      ensures grad == old(grad) + seq(|values|, _ => 0.0)
      ensures |out| == |values| && forall k :: 0 <= k < |values| ==> out[k] == old(|nodes|) + k
    {
      var n := |values|;
      var first := |nodes|;
      ghost var group := SoftmaxGroup(values, first, probs);
      out := [];
      var i := 0;
      while i < n
        invariant 0 <= i <= n && |out| == i
        invariant nodes == old(nodes) + group[..i]
        invariant grad == old(grad) + seq(i, _ => 0.0)
        invariant forall k :: 0 <= k < i ==> out[k] == first + k
      {
        nodes := nodes + [Node(probs[i], Op.Softmax(values, first, i))];
        grad := grad + [0.0];
        out := out + [first + i];
        assert group[..i + 1] == group[..i] + [group[i]];
        i := i + 1;
      }
      assert group[..n] == group;
    }

    /**
     * One pass of the outer loop of the softmax call's shared `_backward`
     * (grad_eng.py:108-113): output i adds its share into every input j,
     * reading its own gradient and the outputs' values as it goes.
     */
    method SoftmaxRow(ins: seq<Handle>, first: Handle, i: nat, ghost og: seq<real>)
      requires Valid() && SoftmaxGroupOk(nodes, ins, first) && i < |ins|
      requires og == grad[first..first + |ins|]
      modifies this
      ensures Valid() && nodes == old(nodes) && |grad| == |old(grad)|
      ensures forall k :: first <= k < |grad| ==> grad[k] == old(grad)[k]
      ensures forall u :: 0 <= u < |grad| ==>
                grad[u] == old(grad)[u] + SoftmaxGrad.RowInflow(ins, OutData(nodes, first, |ins|), og, u, i, |ins|)
    {
      var n := |ins|;
      ghost var s := OutData(nodes, first, n);
      ghost var g0 := grad;
      var j := 0;
      while j < n
        invariant 0 <= j <= n && |grad| == |g0| && nodes == old(nodes)
        invariant forall k :: first <= k < |grad| ==> grad[k] == g0[k]
        invariant forall u :: 0 <= u < |grad| ==> grad[u] == g0[u] + SoftmaxGrad.RowInflow(ins, s, og, u, i, j)
      {
        var x;
        if i == j {
          x := grad[first + i] * nodes[first + i].data * (1.0 - nodes[first + j].data);
        } else {
          x := -grad[first + i] * nodes[first + i].data * nodes[first + j].data;
        }
        SoftmaxGrad.TermAt(s, og, i, j, grad[first + i], nodes[first + i].data, nodes[first + j].data);
        SoftmaxGrad.Accumulate(grad, g0, ins, s, og, i, j, x);
        grad := grad[ins[j] := grad[ins[j]] + x];
        j := j + 1;
      }
    }

    /**
     * The softmax call's shared `_backward` (grad_eng.py:107-113), run by
     * output h: for every pair (i, j) add output i's contribution to input j.
     */
    method SoftmaxStep(h: Handle)
      requires Valid() && h < |nodes| && nodes[h].op.Softmax?
      modifies this
      ensures Valid() && nodes == old(nodes)
      ensures var ins, first := nodes[h].op.inputs, nodes[h].op.first;
              SoftmaxGroupOk(nodes, ins, first) &&
              grad == SoftmaxGrad.Update(old(grad), ins, OutData(nodes, first, |ins|), old(grad)[first..first + |ins|])
    {
      assert NodeOk(nodes, h);
      var ins, first := nodes[h].op.inputs, nodes[h].op.first;
      var n := |ins|;
      ghost var s := OutData(nodes, first, n);
      ghost var og := grad[first..first + n];
      ghost var g0 := grad;
      forall u | 0 <= u < |grad| ensures SoftmaxGrad.Inflow(ins, s, og, u, 0, n) == 0.0 {
        SoftmaxGrad.InflowNoRows(ins, s, og, u, n);
      }
      var i := 0;
      while i < n
        invariant 0 <= i <= n && |grad| == |g0| && nodes == old(nodes) && Valid()
        invariant grad[first..first + n] == og
        invariant forall u :: 0 <= u < |grad| ==> grad[u] == g0[u] + SoftmaxGrad.Inflow(ins, s, og, u, i, n)
      {
        ghost var prev := grad;
        SoftmaxRow(ins, first, i, og);
        assert grad[first..first + n] == og;
        forall u | 0 <= u < |grad|
          ensures grad[u] == g0[u] + SoftmaxGrad.Inflow(ins, s, og, u, i + 1, n)
        {
          SoftmaxGrad.InflowNextRow(ins, s, og, u, i, n);
        }
        i := i + 1;
      }
    }

    /** The `_backward` of `self + other` (grad_eng.py:31-34). */
    method AddStep(h: Handle)
      requires Valid() && h < |nodes| && nodes[h].op.Add?
      modifies this
      ensures Valid() && nodes == old(nodes)
      ensures Step(nodes, old(grad), h).Some? && grad == Step(nodes, old(grad), h).value
    {
      assert NodeOk(nodes, h);
      var a, b := nodes[h].op.lhs, nodes[h].op.rhs;
      var out := grad[h];
      grad := grad[a := grad[a] + out];
      grad := grad[b := grad[b] + out];
    }

    /** The `_backward` of `self * other` (grad_eng.py:43-46). */
    method MulStep(h: Handle)
      requires Valid() && h < |nodes| && nodes[h].op.Mul?
      modifies this
      ensures Valid() && nodes == old(nodes)
      ensures Step(nodes, old(grad), h).Some? && grad == Step(nodes, old(grad), h).value
    {
      assert NodeOk(nodes, h);
      var a, b := nodes[h].op.lhs, nodes[h].op.rhs;
      var out := grad[h];
      var da, db := nodes[a].data, nodes[b].data;
      StepMulUnfold(nodes, grad, h, a, b, da, db, out);
      ghost var half := AddTo(grad, a, db * out);
      grad := grad[a := grad[a] + db * out];
      assert grad == half;
      grad := grad[b := grad[b] + da * out];
    }

    /** The `_backward` of `self ** exponent` (grad_eng.py:55-57); false when it raises. */
    method PowStep(h: Handle) returns (ok: bool)
      requires Valid() && h < |nodes| && nodes[h].op.Pow?
      modifies this
      ensures Valid() && nodes == old(nodes)
      ensures ok == Step(nodes, old(grad), h).Some?
      ensures grad == if ok then Step(nodes, old(grad), h).value else old(grad)
    {
      assert NodeOk(nodes, h);
      var a, e := nodes[h].op.base, nodes[h].op.exponent;
      if nodes[a].data == 0.0 && e < 1 {
        return false;
      }
      var out := grad[h];
      var slope := PowSlope(nodes[a].data, e);
      StepPowUnfold(nodes, grad, h, a, e, slope, out);
      grad := grad[a := grad[a] + slope * out];
      ok := true;
    }

    /** The `_backward` of `self.relu()` (grad_eng.py:69-71). */
    method ReluStep(h: Handle)
      requires Valid() && h < |nodes| && nodes[h].op.Relu?
      modifies this
      ensures Valid() && nodes == old(nodes)
      ensures Step(nodes, old(grad), h).Some? && grad == Step(nodes, old(grad), h).value
    {
      assert NodeOk(nodes, h);
      var a := nodes[h].op.arg;
      var out := grad[h];
      var slope := if nodes[a].data > 0.0 then 1.0 else 0.0;
      StepReluUnfold(nodes, grad, h, a, slope, out);
      grad := grad[a := grad[a] + slope * out];
    }

    /** The `_backward` of `self.tanh()` (grad_eng.py:84-86): t is the node's own value. */
    method TanhStep(h: Handle)
      requires Valid() && h < |nodes| && nodes[h].op.Tanh?
      modifies this
      ensures Valid() && nodes == old(nodes)
      ensures Step(nodes, old(grad), h).Some? && grad == Step(nodes, old(grad), h).value
    {
      assert NodeOk(nodes, h);
      var a := nodes[h].op.arg;
      var t := nodes[h].data;
      var out := grad[h];
      StepTanhUnfold(nodes, grad, h, a, t, out);
      grad := grad[a := grad[a] + (1.0 - t * t) * out];
    }

    /** `node._backward()` for node h; false when it raises ZeroDivisionError, with nothing written. */
    method RunStep(h: Handle) returns (ok: bool)
      requires Valid() && h < |nodes|
      modifies this
      ensures Valid() && nodes == old(nodes)
      ensures ok == Step(nodes, old(grad), h).Some?
      ensures grad == if ok then Step(nodes, old(grad), h).value else old(grad)
    {
      match nodes[h].op
      case Leaf =>
        ok := true;
      case Add(_, _) =>
        AddStep(h);
        ok := true;
      case Mul(_, _) =>
        MulStep(h);
        ok := true;
      case Pow(_, _) =>
        ok := PowStep(h);
      case Relu(_) =>
        ReluStep(h);
        ok := true;
      case Tanh(_) =>
        TanhStep(h);
        ok := true;
      case Softmax(_, _, _) =>
        SoftmaxStep(h);
        ok := true;
    }

    /**
     * `build_topo(v)` inside `backward`: depth-first over `_prev`, appending
     * a node after all its parents; visited and topo are threaded through.
     */
    method BuildTopo(v: Handle, visited: set<Handle>, topo: seq<Handle>) returns (visited': set<Handle>, topo': seq<Handle>)
      requires Acyclic(nodes) && v < |nodes|
      ensures Topo.Trace(visited', topo') == Topo.Dfs(nodes, v, Topo.Trace(visited, topo))
      decreases v
    {
      if v in visited {
        return visited, topo;
      }
      visited', topo' := visited + {v}, topo;
      var ps := Parents(nodes[v].op);
      var i := 0;
      while i < |ps|
        invariant 0 <= i <= |ps|
        invariant Topo.DfsParents(nodes, v, i, Topo.Trace(visited', topo'))
               == Topo.DfsParents(nodes, v, 0, Topo.Trace(visited + {v}, topo))
      {
        assert ps[i] < v;
        visited', topo' := BuildTopo(ps[i], visited', topo');
        i := i + 1;
      }
      topo' := topo' + [v];
    }

    /**
     * `root.backward()`: order the nodes reachable from root, set root's
     * gradient to 1, and run every node's step, last first. ok is false when
     * a step raised, which stops the pass where it is.
     */
    method Backward(root: Handle) returns (ok: bool)
      requires Valid() && root < |nodes|
      modifies this
      ensures Valid() && nodes == old(nodes)
      ensures Run(grad, ok) == BackwardSpec(nodes, old(grad), root)
    {
      var visited, topo := BuildTopo(root, {}, []);
      assert topo == Topo.TopoOrder(nodes, root);
      grad := grad[root := 1.0];
      ghost var seeded := grad;
      var i := |topo|;
      assert topo[..i] == topo;
      while i > 0
        invariant 0 <= i <= |topo| && Valid() && nodes == old(nodes)
        invariant InArena(nodes, topo) && InArena(nodes, topo[..i])
        invariant Replay(nodes, grad, topo[..i]) == Replay(nodes, seeded, topo)
      {
        ReplayUnfold(nodes, grad, topo, i);
        ok := RunStep(topo[i - 1]);
        if !ok {
          return;
        }
        i := i - 1;
      }
      assert topo[..0] == [];
      ok := true;
    }
  }
}
